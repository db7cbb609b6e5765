/** The orchestration of `ExcelSKULoader` (nodes.py): labels built from the
    piece-count template, the group-wise run of `process_by_combined_sku`
    (nodes.py:246-346), the merged run of `process_all_in_one`
    (nodes.py:377-423), the fallback of `create_empty_result`
    (nodes.py:547-551), the control flow of `load_sku_data` (nodes.py:149-244)
    and the `is_url` predicate (nodes.py:16-21).

    Images are known by their size and a batch by its frames: where each
    source image lands on the batch's canvas. Pixel values, the float tensor
    conversion and the report's free text are not modelled. */
module Loader {
  import opened Wrappers
  import opened OrderedMaps
  import opened Text
  import opened Cells
  import opened SkuParser
  import opened ImageCache
  import opened Geometry

  /* ----- Labels ----- */

  /** The five label templates offered for `label_format` (nodes.py:87):
      "×{pcs}", "x{pcs}", "{pcs}件", "{pcs}套" and "PCS:{pcs}". */
  datatype LabelFormat = Times | LatinX | Pieces | Sets | PcsColon {
    /** The template's text before `{pcs}`. */
    function Prefix(): string {
      match this
      case Times => "×"
      case LatinX => "x"
      case Pieces => ""
      case Sets => ""
      case PcsColon => "PCS:"
    }

    /** The template's text after `{pcs}`. */
    function Suffix(): string {
      match this
      case Times => ""
      case LatinX => ""
      case Pieces => "件"
      case Sets => "套"
      case PcsColon => ""
    }
  }

  /** `label_format.format(pcs=pcs)`. A label never contains the comma that
      joins a batch's labels. */
  function Label(fmt: LabelFormat, pcs: int): (s: string)
    ensures ',' !in s
    ensures Unwrap(fmt.Prefix(), fmt.Suffix(), s) == Some(IntToString(pcs))
  {
    var d := IntToString(pcs);
    assert forall k :: 0 <= k < |d| ==> d[k] != ',';
    UnwrapWrap(fmt.Prefix(), d, fmt.Suffix());
    fmt.Prefix() + d + fmt.Suffix()
  }

  /** The text between a known prefix and suffix, if `s` has both and
      something between them. */
  function Unwrap(p: string, q: string, s: string): Option<string> {
    if |p| + |q| < |s| && s[..|p|] == p && s[|s| - |q|..] == q then Some(s[|p|..|s| - |q|]) else None
  }

  lemma UnwrapWrap(p: string, d: string, q: string)
    requires |d| > 0
    ensures Unwrap(p, q, p + d + q) == Some(d)
  {
    var s := p + d + q;
    assert s[..|p|] == p;
    assert s[|s| - |q|..] == q;
    assert s[|p|..|s| - |q|] == d;
  }

  /** Reading a label back: drop the template's fixed text and parse the
      number between. */
  function LabelPcs(fmt: LabelFormat, s: string): Option<int> {
    match Unwrap(fmt.Prefix(), fmt.Suffix(), s)
    case None => None
    case Some(d) => ParseInt(d)
  }

  /** A label carries its piece count: reading it back gives the number. */
  lemma LabelRoundTrip(fmt: LabelFormat, pcs: int)
    ensures LabelPcs(fmt, Label(fmt, pcs)) == Some(pcs)
  {
    ParseIntOfIntToString(pcs);
  }

  /** One label per item, in item order. */
  function Labels(fmt: LabelFormat, items: seq<Item>): seq<string> {
    seq(|items|, i requires 0 <= i < |items| => Label(fmt, items[i].pcs))
  }

  /** `",".join(labels)`: the batch's label string, which splits back into
      exactly one label per item, in order. */
  function LabelString(fmt: LabelFormat, items: seq<Item>): (s: string)
    ensures |items| > 0 ==> Split(s, ',') == Labels(fmt, items)
  {
    var ls := Labels(fmt, items);
    if |items| > 0 then SplitJoin(ls, ','); Join(ls, ',') else Join(ls, ',')
  }

  /* ----- Batches ----- */

  /** An image that survived its download, with the item it was fetched for. */
  datatype Fetched = Fetched(image: Image, item: Item)

  /** The surviving downloads of a list of items, with the positions they
      came from. */
  datatype Kept = Kept(fetched: seq<Fetched>, from: seq<nat>)

  /** The items whose download returned an image, in item order: exactly the
      positions where an image came back, each paired with its item. */
  function Survivors(images: seq<Option<Image>>, items: seq<Item>): (k: Kept)
    requires |images| == |items|
    ensures |k.fetched| == |k.from| <= |items|
    ensures forall j :: 0 <= j < |k.from| ==>
      k.from[j] < |items| && items[k.from[j]] == k.fetched[j].item && images[k.from[j]] == Some(k.fetched[j].image)
    ensures forall j, j' :: 0 <= j < j' < |k.from| ==> k.from[j] < k.from[j']
    ensures forall i :: 0 <= i < |images| && images[i].Some? ==> i in k.from
  {
    if |images| == 0 then Kept([], [])
    else
      var n := |images| - 1;
      var k := Survivors(images[..n], items[..n]);
      match images[n]
      case None => k
      case Some(img) => Kept(k.fetched + [Fetched(img, items[n])], k.from + [n])
  }

  /** Nothing survives exactly when no download returned an image. */
  lemma NothingSurvives(images: seq<Option<Image>>, items: seq<Item>)
    requires |images| == |items|
    ensures |Survivors(images, items).fetched| == 0 <==> forall i :: 0 <= i < |images| ==> images[i].None?
  {
    var k := Survivors(images, items);
    if i :| 0 <= i < |images| && images[i].Some? {
      assert i in k.from;
    }
  }

  /** What a batch slot holds: an image resized and padded onto the canvas,
      an image at its own size, or the black placeholder. */
  datatype Frame = Pasted(source: Image, placement: Placement) | Native(source: Image) | Black

  /** A stacked image tensor: `|frames|` images of `width` x `height`. */
  datatype Batch = Batch(width: Pos, height: Pos, frames: seq<Frame>)

  function Images(fetched: seq<Fetched>): (images: seq<Image>)
    ensures |images| == |fetched| && forall i :: 0 <= i < |fetched| ==> images[i] == fetched[i].image
  {
    seq(|fetched|, i requires 0 <= i < |fetched| => fetched[i].image)
  }

  function Items(fetched: seq<Fetched>): (items: seq<Item>)
    ensures |items| == |fetched| && forall i :: 0 <= i < |fetched| ==> items[i] == fetched[i].item
  {
    seq(|fetched|, i requires 0 <= i < |fetched| => fetched[i].item)
  }

  /** A frame lies on a `width` x `height` canvas without cropping. */
  predicate FrameFits(f: Frame, width: Pos, height: Pos) {
    match f
    case Pasted(_, p) => p.x + p.width <= width && p.y + p.height <= height
    case Native(img) => img.width == width && img.height == height
    case Black => width == 512 && height == 512
  }

  /** Steps two to four of a group (nodes.py:282-315): the canvas is the
      widest and tallest of the group's images, and every image is resized
      and padded onto it, in order, never shrunk and never cropped. */
  function ComposeBatch(fetched: seq<Fetched>): (b: Batch)
    requires |fetched| > 0
    ensures b.width == Canvas(Images(fetched)).width && b.height == Canvas(Images(fetched)).height
    ensures |b.frames| == |fetched|
    ensures forall i :: 0 <= i < |fetched| ==>
      && b.frames[i].Pasted? && b.frames[i].source == fetched[i].image
      && FrameFits(b.frames[i], b.width, b.height)
      && fetched[i].image.width <= b.frames[i].placement.width
      && fetched[i].image.height <= b.frames[i].placement.height
  {
    var images := Images(fetched);
    var c := Canvas(images);
    var frames := seq(|fetched|, i requires 0 <= i < |fetched| =>
      Pasted(images[i], ResizeAndPad(images[i].width, images[i].height, c.width, c.height)));
    PlacedFramesFit(images, frames);
    Batch(c.width, c.height, frames)
  }

  /** Every image pasted onto the group's canvas keeps its size and fits. */
  lemma PlacedFramesFit(images: seq<Image>, frames: seq<Frame>)
    requires |images| > 0 && |frames| == |images|
    requires forall i :: 0 <= i < |frames| ==>
      frames[i] == Pasted(images[i], ResizeAndPad(images[i].width, images[i].height, Canvas(images).width, Canvas(images).height))
    ensures forall i :: 0 <= i < |frames| ==>
      && frames[i].Pasted? && frames[i].source == images[i]
      && images[i].width <= frames[i].placement.width && images[i].height <= frames[i].placement.height
      && FrameFits(frames[i], Canvas(images).width, Canvas(images).height)
  {
    forall i | 0 <= i < |frames|
      ensures images[i].width <= frames[i].placement.width && images[i].height <= frames[i].placement.height
      ensures FrameFits(frames[i], Canvas(images).width, Canvas(images).height)
    {
      GroupNeverShrinks(images, i);
    }
  }

  /** Each frame of a group's batch is its image as `resize_and_pad` places
      it on the batch's canvas. */
  lemma ComposeBatchPlacement(fetched: seq<Fetched>)
    requires |fetched| > 0
    ensures var b := ComposeBatch(fetched);
      forall i :: 0 <= i < |fetched| ==>
        b.frames[i] == Pasted(fetched[i].image,
                              ResizeAndPad(fetched[i].image.width, fetched[i].image.height, b.width, b.height))
  {
  }

  /* ----- Reports and results ----- */

  /** One line of the report's per-group section. */
  datatype GroupLine =
    | Succeeded(key: string, count: nat)   // a batch of `count` images
    | Failed(key: string)                  // nothing fetched, no batch
    | Listed(key: string, count: nat)      // merged mode: the group's parsed items

  /** The line's text, as the source formats it. */
  function LineText(l: GroupLine): (t: string)
    ensures l.Succeeded? ==> StartsWith(t, "✅ ")
    ensures l.Failed? ==> StartsWith(t, "❌ ")
    ensures l.Listed? ==> StartsWith(t, l.key)
  {
    match l
    case Succeeded(k, n) => "✅ " + k + ": " + IntToString(n) + " 个SKU"
    case Failed(k) => "❌ " + k + ": 0 个SKU (失败)"
    case Listed(k, n) => k + ": " + IntToString(n) + " 个SKU"
  }

  /** The cache hit ratio: not applicable without any download call,
      otherwise hits out of all calls. */
  datatype Ratio = NotApplicable | Percent(hits: nat, attempts: nat)

  function HitRatio(s: Stats): (r: Ratio)
    ensures r.NotApplicable? <==> s.Calls() == 0
    ensures r.Percent? ==> r.hits == s.hits && r.attempts == s.Calls() && r.hits <= r.attempts
  {
    if s.hits + s.misses > 0 then Percent(s.hits, s.hits + s.misses) else NotApplicable
  }

  /** Why a load fell back to the placeholder. */
  datatype Cause =
    | SourceUnreadable      // the sheet could not be read
    | RowIndexOutOfRange    // `df.iloc` raised for a start row before the sheet
    | BatchShapeMismatch    // merged mode stacked images of different sizes

  datatype Message = NoData | LoadFailed(cause: Cause)

  datatype Report =
    | ByGroupReport(groupCount: nat, batchCount: nat, imageCount: nat, lines: seq<GroupLine>,
                    hits: nat, misses: nat, ratio: Ratio)
    | MergedReport(groupCount: nat, imageCount: nat, lines: seq<GroupLine>)
    | Failure(message: Message)

  /** The fallback's message text: "无数据" by default, or the load error.
      The exception's own text is not modelled. */
  function FailureText(m: Message): (t: string)
    ensures StartsWith(t, "❌ ")
  {
    match m
    case NoData => "❌ 无数据"
    case LoadFailed(_) => "❌ 加载失败: "
  }

  /** The node's three outputs: the image batches, one label string per
      batch, and the report. */
  datatype LoadResult = LoadResult(batches: seq<Batch>, labels: seq<string>, report: Report)

  /** `create_empty_result(message)`: one batch holding one black 512x512
      image, one empty label, and the message. */
  function EmptyResult(m: Message): (r: LoadResult)
    ensures |r.batches| == 1 && r.batches[0].width == 512 && r.batches[0].height == 512
    ensures r.batches[0].frames == [Black] && r.labels == [""]
    ensures r.report.Failure? && r.report.message == m
  {
    LoadResult([Batch(512, 512, [Black])], [""], Failure(m))
  }

  /** A batch with its label string: at least one image, every frame on the
      batch's canvas, and one label per image. */
  ghost predicate BatchOk(b: Batch, text: string) {
    && |b.frames| > 0
    && (forall i :: 0 <= i < |b.frames| ==> FrameFits(b.frames[i], b.width, b.height))
    && |Split(text, ',')| == |b.frames|
  }

  /** What every result satisfies: as many label strings as batches and at
      least one of each; outside the fallback every batch is sound with its
      label string, and the fallback is exactly `create_empty_result`. */
  ghost predicate WellFormed(r: LoadResult) {
    && |r.batches| == |r.labels| >= 1
    && (r.report.Failure? ==> r == EmptyResult(r.report.message))
    && (!r.report.Failure? ==> forall j :: 0 <= j < |r.batches| ==> BatchOk(r.batches[j], r.labels[j]))
  }

  /* ----- The group-wise run ----- */

  type Groups = OrderedMap<string, seq<Item>>

  function Urls(items: seq<Item>): (urls: seq<string>)
    ensures |urls| == |items| && forall i :: 0 <= i < |items| ==> urls[i] == items[i].url
  {
    seq(|items|, i requires 0 <= i < |items| => items[i].url)
  }

  /** The number of items over the given keys' groups. */
  function ItemCount(groups: Groups, keys: seq<string>): nat
    requires forall k :: k in keys ==> k in groups.values
  {
    if |keys| == 0 then 0 else |groups.values[keys[0]]| + ItemCount(groups, keys[1..])
  }

  /** The image counts of the successful groups, in order. */
  function SucceededCounts(lines: seq<GroupLine>): seq<nat> {
    if |lines| == 0 then []
    else (if lines[0].Succeeded? then [lines[0].count] else []) + SucceededCounts(lines[1..])
  }

  /** One group of `process_by_combined_sku` (nodes.py:260-318): download every
      item, keep the ones that came back, and either build the group's batch
      and label string or record the group as failed. */
  datatype GroupStep = GroupStep(batch: Option<(Batch, string)>, line: GroupLine, cache: Cache, stats: Stats)

  function RunGroup(key: string, items: seq<Item>, cache: Cache, stats: Stats, capacity: nat, useCache: bool,
                    fmt: LabelFormat, fetch: Fetcher): (g: GroupStep)
    requires cache.Valid()
    ensures g.cache.Valid()
    ensures g.stats.Calls() == stats.Calls() + |items|
    ensures g.line.key == key
    ensures g.line.Failed? <==> g.batch.None?
    ensures g.line.Succeeded? ==>
      && 1 <= g.line.count <= |items|
      && |g.batch.value.0.frames| == g.line.count
      && BatchOk(g.batch.value.0, g.batch.value.1)
    ensures !g.line.Succeeded? ==> g.line.Failed?
    ensures |items| == 0 ==> g.line.Failed?
  {
    var run := DownloadAll(cache, stats, capacity, Urls(items), useCache, fetch);
    var kept := Survivors(run.images, items);
    if |kept.fetched| == 0 then
      GroupStep(None, Failed(key), run.cache, run.stats)
    else
      var b := ComposeBatch(kept.fetched);
      GroupStep(Some((b, LabelString(fmt, Items(kept.fetched)))), Succeeded(key, |kept.fetched|), run.cache, run.stats)
  }

  /** A group yields a batch exactly when at least one of its downloads
      returned an image; the batch is the surviving images resized onto
      their canvas, with their labels joined, and the cache and counters are
      those the group's downloads left. */
  lemma RunGroupOutcome(key: string, items: seq<Item>, cache: Cache, stats: Stats, capacity: nat, useCache: bool,
                        fmt: LabelFormat, fetch: Fetcher)
    requires cache.Valid()
    ensures var g := RunGroup(key, items, cache, stats, capacity, useCache, fmt, fetch);
      var run := DownloadAll(cache, stats, capacity, Urls(items), useCache, fetch);
      var kept := Survivors(run.images, items);
      && g.cache == run.cache && g.stats == run.stats
      && (g.batch.Some? <==> exists i :: 0 <= i < |items| && run.images[i].Some?)
      && (g.batch.Some? ==> g.batch.value == (ComposeBatch(kept.fetched), LabelString(fmt, Items(kept.fetched))))
  {
    var run := DownloadAll(cache, stats, capacity, Urls(items), useCache, fetch);
    var kept := Survivors(run.images, items);
    var g := RunGroup(key, items, cache, stats, capacity, useCache, fmt, fetch);
    if |kept.fetched| == 0 {
      assert g == GroupStep(None, Failed(key), run.cache, run.stats);
    } else {
      var b := ComposeBatch(kept.fetched);
      assert g == GroupStep(Some((b, LabelString(fmt, Items(kept.fetched)))), Succeeded(key, |kept.fetched|),
                            run.cache, run.stats);
    }
    if exists i :: 0 <= i < |items| && run.images[i].Some? {
      var i :| 0 <= i < |items| && run.images[i].Some?;
      assert i in kept.from;
    }
  }

  /** Within a group's batch, the `j`-th label and the `j`-th frame come from
      the same item: the `j`-th item, in row order, whose download returned
      an image. */
  lemma RunGroupPairsLabelsWithFrames(key: string, items: seq<Item>, cache: Cache, stats: Stats, capacity: nat,
                                      useCache: bool, fmt: LabelFormat, fetch: Fetcher)
    requires cache.Valid()
    ensures var g := RunGroup(key, items, cache, stats, capacity, useCache, fmt, fetch);
      var run := DownloadAll(cache, stats, capacity, Urls(items), useCache, fetch);
      var from := Survivors(run.images, items).from;
      g.batch.Some? ==>
        var labels := Split(g.batch.value.1, ',');
        && |labels| == |g.batch.value.0.frames| == |from|
        && forall j :: 0 <= j < |from| ==>
          && labels[j] == Label(fmt, items[from[j]].pcs)
          && run.images[from[j]] == Some(g.batch.value.0.frames[j].source)
  {
    var run := DownloadAll(cache, stats, capacity, Urls(items), useCache, fetch);
    var kept := Survivors(run.images, items);
    if |kept.fetched| > 0 {
      var b := ComposeBatch(kept.fetched);
      var ls := LabelString(fmt, Items(kept.fetched));
      assert RunGroup(key, items, cache, stats, capacity, useCache, fmt, fetch).batch == Some((b, ls));
      SurvivorsPairUp(run.images, items, kept, b, ls, fmt);
    }
  }

  /** The batch and the label string built from the surviving downloads list
      them in the same order. */
  lemma SurvivorsPairUp(images: seq<Option<Image>>, items: seq<Item>, kept: Kept, b: Batch, ls: string,
                        fmt: LabelFormat)
    requires |kept.fetched| == |kept.from| > 0
    requires forall j :: 0 <= j < |kept.from| ==>
      kept.from[j] < |items| && items[kept.from[j]] == kept.fetched[j].item
      && kept.from[j] < |images| && images[kept.from[j]] == Some(kept.fetched[j].image)
    requires b == ComposeBatch(kept.fetched) && ls == LabelString(fmt, Items(kept.fetched))
    ensures var labels := Split(ls, ',');
      && |labels| == |b.frames| == |kept.from|
      && forall j :: 0 <= j < |kept.from| ==>
        labels[j] == Label(fmt, items[kept.from[j]].pcs) && images[kept.from[j]] == Some(b.frames[j].source)
  {
    var labels := Split(ls, ',');
    assert labels == Labels(fmt, Items(kept.fetched));
    forall j | 0 <= j < |kept.from|
      ensures labels[j] == Label(fmt, items[kept.from[j]].pcs) && images[kept.from[j]] == Some(b.frames[j].source)
    {
      assert Items(kept.fetched)[j] == kept.fetched[j].item == items[kept.from[j]];
    }
  }

  /** A group none of whose images can be obtained (none is cached and every
      request fails) is reported as failed, has no batch, and leaves the
      cache as it was. */
  lemma UnreachableGroupFails(key: string, items: seq<Item>, cache: Cache, stats: Stats, capacity: nat,
                              useCache: bool, fmt: LabelFormat, fetch: Fetcher)
    requires cache.Valid()
    requires forall i, n :: 0 <= i < |items| ==> fetch(items[i].url, n).None?
    requires useCache ==> forall i :: 0 <= i < |items| ==> items[i].url !in cache.values
    ensures var g := RunGroup(key, items, cache, stats, capacity, useCache, fmt, fetch);
      g.line == Failed(key) && g.batch.None? && g.cache == cache
  {
    var urls := Urls(items);
    forall u, n | u in urls
      ensures fetch(u, n).None? && (useCache ==> u !in cache.values)
    {
      var i :| 0 <= i < |urls| && urls[i] == u;
    }
    FailedDownloadsKeepCache(cache, stats, capacity, urls, useCache, fetch);
    var run := DownloadAll(cache, stats, capacity, urls, useCache, fetch);
    NoSurvivors(run.images, items);
    assert RunGroup(key, items, cache, stats, capacity, useCache, fmt, fetch)
        == GroupStep(None, Failed(key), run.cache, run.stats);
  }

  lemma NoSurvivors(images: seq<Option<Image>>, items: seq<Item>)
    requires |images| == |items| && forall i :: 0 <= i < |images| ==> images[i].None?
    ensures Survivors(images, items).fetched == []
  {
  }

  datatype GroupRun = GroupRun(batches: seq<Batch>, labels: seq<string>, lines: seq<GroupLine>,
                               cache: Cache, stats: Stats)

  /** The loop of `process_by_combined_sku` over the groups in key order:
      one report line per group, in order, and one batch with its label
      string per successful group, in the same order. */
  function RunGroups(groups: Groups, keys: seq<string>, cache: Cache, stats: Stats, capacity: nat,
                     useCache: bool, fmt: LabelFormat, fetch: Fetcher): (r: GroupRun)
    requires cache.Valid()
    requires forall k :: k in keys ==> k in groups.values
    ensures r.cache.Valid()
    ensures r.stats.Calls() == stats.Calls() + ItemCount(groups, keys)
    ensures |r.lines| == |keys| && forall i :: 0 <= i < |keys| ==> r.lines[i].key == keys[i]
    ensures forall i :: 0 <= i < |keys| ==> r.lines[i].Succeeded? || r.lines[i].Failed?
    ensures forall i :: 0 <= i < |keys| && |groups.values[keys[i]]| == 0 ==> r.lines[i].Failed?
    ensures |r.batches| == |r.labels| == |SucceededCounts(r.lines)|
    ensures forall j :: 0 <= j < |r.batches| ==>
      BatchOk(r.batches[j], r.labels[j]) && |r.batches[j].frames| == SucceededCounts(r.lines)[j]
    ensures |r.batches| > 0 ==> ItemCount(groups, keys) > 0
  {
    if |keys| == 0 then GroupRun([], [], [], cache, stats)
    else
      var g := RunGroup(keys[0], groups.values[keys[0]], cache, stats, capacity, useCache, fmt, fetch);
      var rest := RunGroups(groups, keys[1..], g.cache, g.stats, capacity, useCache, fmt, fetch);
      var r := match g.batch
        case None => GroupRun(rest.batches, rest.labels, [g.line] + rest.lines, rest.cache, rest.stats)
        case Some((b, l)) => GroupRun([b] + rest.batches, [l] + rest.labels, [g.line] + rest.lines, rest.cache, rest.stats);
      ConsGroup(g, rest, r, |groups.values[keys[0]]|, ItemCount(groups, keys[1..]));
      ConsLines(groups, keys, g.line, rest.lines, r.lines);
      assert ItemCount(groups, keys) == |groups.values[keys[0]]| + ItemCount(groups, keys[1..]);
      r
  }

  /** Putting one group's report line in front of the rest's keeps one line
      per key, in key order. */
  lemma ConsLines(groups: Groups, keys: seq<string>, line: GroupLine, rest: seq<GroupLine>, lines: seq<GroupLine>)
    requires |keys| > 0 && forall k :: k in keys ==> k in groups.values
    requires line.key == keys[0] && (line.Succeeded? || line.Failed?)
    requires |groups.values[keys[0]]| == 0 ==> line.Failed?
    requires |rest| == |keys| - 1 && forall i :: 0 <= i < |rest| ==> rest[i].key == keys[1..][i]
    requires forall i :: 0 <= i < |rest| ==> rest[i].Succeeded? || rest[i].Failed?
    requires forall i :: 0 <= i < |rest| && |groups.values[keys[1..][i]]| == 0 ==> rest[i].Failed?
    requires lines == [line] + rest
    ensures |lines| == |keys| && forall i :: 0 <= i < |keys| ==> lines[i].key == keys[i]
    ensures forall i :: 0 <= i < |keys| ==> lines[i].Succeeded? || lines[i].Failed?
    ensures forall i :: 0 <= i < |keys| && |groups.values[keys[i]]| == 0 ==> lines[i].Failed?
  {
    forall i | 0 < i < |keys|
      ensures lines[i] == rest[i - 1] && keys[i] == keys[1..][i - 1]
    {
    }
  }

  /** Putting one group's outcome in front of the rest's keeps batches, label
      strings and successful lines aligned. */
  lemma ConsGroup(g: GroupStep, rest: GroupRun, r: GroupRun, size: nat, restSize: nat)
    requires g.line.Failed? <==> g.batch.None?
    requires g.line.Succeeded? ==> 1 <= g.line.count <= size
    requires |rest.batches| > 0 ==> restSize > 0
    requires g.line.Succeeded? ==> BatchOk(g.batch.value.0, g.batch.value.1) && |g.batch.value.0.frames| == g.line.count
    requires !g.line.Succeeded? ==> g.line.Failed?
    requires |rest.batches| == |rest.labels| == |SucceededCounts(rest.lines)|
    requires forall j :: 0 <= j < |rest.batches| ==>
      BatchOk(rest.batches[j], rest.labels[j]) && |rest.batches[j].frames| == SucceededCounts(rest.lines)[j]
    requires r.lines == [g.line] + rest.lines
    requires g.batch.None? ==> r.batches == rest.batches && r.labels == rest.labels
    requires g.batch.Some? ==> r.batches == [g.batch.value.0] + rest.batches && r.labels == [g.batch.value.1] + rest.labels
    ensures |r.batches| == |r.labels| == |SucceededCounts(r.lines)|
    ensures forall j :: 0 <= j < |r.batches| ==>
      BatchOk(r.batches[j], r.labels[j]) && |r.batches[j].frames| == SucceededCounts(r.lines)[j]
    ensures |r.batches| > 0 ==> size + restSize > 0
  {
    assert r.lines[1..] == rest.lines;
    if g.batch.None? {
      assert SucceededCounts(r.lines) == SucceededCounts(rest.lines);
    } else {
      assert SucceededCounts(r.lines) == [g.line.count] + SucceededCounts(rest.lines);
      forall j | 0 <= j < |r.batches|
        ensures BatchOk(r.batches[j], r.labels[j]) && |r.batches[j].frames| == SucceededCounts(r.lines)[j]
      {
        if j > 0 {
          assert r.batches[j] == rest.batches[j - 1] && r.labels[j] == rest.labels[j - 1];
        }
      }
    }
  }

  /** The groups run one after another, each from the cache and counters the
      one before it left: the reference the loop is stated against. */
  function Steps(groups: Groups, keys: seq<string>, cache: Cache, stats: Stats, capacity: nat, useCache: bool,
                 fmt: LabelFormat, fetch: Fetcher): (s: seq<GroupStep>)
    requires cache.Valid()
    requires forall k :: k in keys ==> k in groups.values
    ensures |s| == |keys|
    ensures forall i :: 0 <= i < |s| ==> s[i].cache.Valid()
    decreases |keys|
  {
    if |keys| == 0 then []
    else
      var g := RunGroup(keys[0], groups.values[keys[0]], cache, stats, capacity, useCache, fmt, fetch);
      [g] + Steps(groups, keys[1..], g.cache, g.stats, capacity, useCache, fmt, fetch)
  }

  /** The `i`-th step is group `keys[i]` run from where step `i - 1` left
      the cache and the counters, the first from the starting ones. */
  lemma {:induction false} StepsChain(groups: Groups, keys: seq<string>, cache: Cache, stats: Stats, capacity: nat,
                                      useCache: bool, fmt: LabelFormat, fetch: Fetcher)
    requires cache.Valid()
    requires forall k :: k in keys ==> k in groups.values
    ensures var s := Steps(groups, keys, cache, stats, capacity, useCache, fmt, fetch);
      |keys| > 0 ==> s[0] == RunGroup(keys[0], groups.values[keys[0]], cache, stats, capacity, useCache, fmt, fetch)
    ensures var s := Steps(groups, keys, cache, stats, capacity, useCache, fmt, fetch);
      forall i :: 0 < i < |keys| ==>
        s[i] == RunGroup(keys[i], groups.values[keys[i]], s[i - 1].cache, s[i - 1].stats, capacity, useCache, fmt, fetch)
    decreases |keys|
  {
    if |keys| > 0 {
      var s := Steps(groups, keys, cache, stats, capacity, useCache, fmt, fetch);
      var g := RunGroup(keys[0], groups.values[keys[0]], cache, stats, capacity, useCache, fmt, fetch);
      var rest := Steps(groups, keys[1..], g.cache, g.stats, capacity, useCache, fmt, fetch);
      StepsChain(groups, keys[1..], g.cache, g.stats, capacity, useCache, fmt, fetch);
      StepsUnfold(groups, keys, cache, stats, capacity, useCache, fmt, fetch);
      forall i | 0 < i < |keys|
        ensures s[i] == RunGroup(keys[i], groups.values[keys[i]], s[i - 1].cache, s[i - 1].stats,
                                 capacity, useCache, fmt, fetch)
      {
        assert s[i] == rest[i - 1] && keys[i] == keys[1..][i - 1];
        if i == 1 {
          assert s[0] == g;
        } else {
          assert s[i - 1] == rest[i - 2];
        }
      }
    }
  }

  /** The batches of the steps that produced one, in order. */
  function Batches(s: seq<GroupStep>): seq<Batch> {
    if |s| == 0 then [] else (if s[0].batch.Some? then [s[0].batch.value.0] else []) + Batches(s[1..])
  }

  /** The label strings of the steps that produced a batch, in order. */
  function LabelStrings(s: seq<GroupStep>): seq<string> {
    if |s| == 0 then [] else (if s[0].batch.Some? then [s[0].batch.value.1] else []) + LabelStrings(s[1..])
  }

  /** No step produced a batch exactly when there are no batches. */
  lemma {:induction false} NoBatches(s: seq<GroupStep>)
    ensures |Batches(s)| == 0 <==> forall i :: 0 <= i < |s| ==> s[i].batch.None?
  {
    if |s| > 0 {
      NoBatches(s[1..]);
      assert forall i :: 0 < i < |s| ==> s[i] == s[1..][i - 1];
    }
  }

  /** The loop does what the steps do: line `i` is step `i`'s line, the
      batches and label strings are those of the steps that produced one, in
      key order, and the cache and counters are what the last step left. */
  lemma {:induction false} RunGroupsFollowsSteps(groups: Groups, keys: seq<string>, cache: Cache, stats: Stats,
                                                 capacity: nat, useCache: bool, fmt: LabelFormat, fetch: Fetcher)
    requires cache.Valid()
    requires forall k :: k in keys ==> k in groups.values
    ensures var r := RunGroups(groups, keys, cache, stats, capacity, useCache, fmt, fetch);
      var s := Steps(groups, keys, cache, stats, capacity, useCache, fmt, fetch);
      && (forall i :: 0 <= i < |keys| ==> r.lines[i] == s[i].line)
      && r.batches == Batches(s) && r.labels == LabelStrings(s)
      && (|keys| == 0 ==> r.cache == cache && r.stats == stats)
      && (|keys| > 0 ==> r.cache == s[|keys| - 1].cache && r.stats == s[|keys| - 1].stats)
    decreases |keys|
  {
    if |keys| > 0 {
      var g := RunGroup(keys[0], groups.values[keys[0]], cache, stats, capacity, useCache, fmt, fetch);
      var rest := Steps(groups, keys[1..], g.cache, g.stats, capacity, useCache, fmt, fetch);
      var restRun := RunGroups(groups, keys[1..], g.cache, g.stats, capacity, useCache, fmt, fetch);
      RunGroupsFollowsSteps(groups, keys[1..], g.cache, g.stats, capacity, useCache, fmt, fetch);
      RunGroupsUnfold(groups, keys, cache, stats, capacity, useCache, fmt, fetch);
      StepsUnfold(groups, keys, cache, stats, capacity, useCache, fmt, fetch);
      var r := RunGroups(groups, keys, cache, stats, capacity, useCache, fmt, fetch);
      ConsStep(g, rest, restRun, r, Steps(groups, keys, cache, stats, capacity, useCache, fmt, fetch));
    }
  }

  /** One iteration of the loop: the first group's step, then the rest. */
  lemma RunGroupsUnfold(groups: Groups, keys: seq<string>, cache: Cache, stats: Stats, capacity: nat, useCache: bool,
                        fmt: LabelFormat, fetch: Fetcher)
    requires cache.Valid() && |keys| > 0
    requires forall k :: k in keys ==> k in groups.values
    ensures var g := RunGroup(keys[0], groups.values[keys[0]], cache, stats, capacity, useCache, fmt, fetch);
      var rest := RunGroups(groups, keys[1..], g.cache, g.stats, capacity, useCache, fmt, fetch);
      var r := RunGroups(groups, keys, cache, stats, capacity, useCache, fmt, fetch);
      && r.lines == [g.line] + rest.lines && r.cache == rest.cache && r.stats == rest.stats
      && (g.batch.None? ==> r.batches == rest.batches && r.labels == rest.labels)
      && (g.batch.Some? ==>
            r.batches == [g.batch.value.0] + rest.batches && r.labels == [g.batch.value.1] + rest.labels)
  {
  }

  lemma StepsUnfold(groups: Groups, keys: seq<string>, cache: Cache, stats: Stats, capacity: nat, useCache: bool,
                    fmt: LabelFormat, fetch: Fetcher)
    requires cache.Valid() && |keys| > 0
    requires forall k :: k in keys ==> k in groups.values
    ensures var g := RunGroup(keys[0], groups.values[keys[0]], cache, stats, capacity, useCache, fmt, fetch);
      Steps(groups, keys, cache, stats, capacity, useCache, fmt, fetch)
        == [g] + Steps(groups, keys[1..], g.cache, g.stats, capacity, useCache, fmt, fetch)
  {
  }

  /** Putting one group's step in front of the rest keeps the loop's result
      equal to what the steps describe. */
  lemma ConsStep(g: GroupStep, rest: seq<GroupStep>, restRun: GroupRun, r: GroupRun, s: seq<GroupStep>)
    requires s == [g] + rest
    requires r.lines == [g.line] + restRun.lines && r.cache == restRun.cache && r.stats == restRun.stats
    requires g.batch.None? ==> r.batches == restRun.batches && r.labels == restRun.labels
    requires g.batch.Some? ==>
      r.batches == [g.batch.value.0] + restRun.batches && r.labels == [g.batch.value.1] + restRun.labels
    requires |restRun.lines| >= |rest| && forall i :: 0 <= i < |rest| ==> restRun.lines[i] == rest[i].line
    requires restRun.batches == Batches(rest) && restRun.labels == LabelStrings(rest)
    requires |rest| == 0 ==> restRun.cache == g.cache && restRun.stats == g.stats
    requires |rest| > 0 ==> restRun.cache == rest[|rest| - 1].cache && restRun.stats == rest[|rest| - 1].stats
    ensures forall i :: 0 <= i < |s| ==> r.lines[i] == s[i].line
    ensures r.batches == Batches(s) && r.labels == LabelStrings(s)
    ensures r.cache == s[|s| - 1].cache && r.stats == s[|s| - 1].stats
  {
    assert s[1..] == rest;
    forall i | 0 < i < |s|
      ensures r.lines[i] == s[i].line
    {
      assert r.lines[i] == restRun.lines[i - 1] && s[i] == rest[i - 1];
    }
  }

  /** The sum of a list of counts. */
  function Sum(xs: seq<nat>): nat {
    if |xs| == 0 then 0 else xs[0] + Sum(xs[1..])
  }

  /** Batches of the given sizes hold the sum of the sizes in images. */
  lemma {:induction false} TotalFramesIsSum(batches: seq<Batch>, counts: seq<nat>)
    requires |batches| == |counts|
    requires forall j :: 0 <= j < |batches| ==> |batches[j].frames| == counts[j]
    ensures TotalFrames(batches) == Sum(counts)
  {
    if |batches| > 0 {
      TotalFramesIsSum(batches[1..], counts[1..]);
    }
  }

  datatype Run = Run(result: LoadResult, cache: Cache, stats: Stats)

  /** `process_by_combined_sku`: the successful groups' batches and label
      strings with the group-wise report, or the "无数据" fallback when no
      group produced a batch. */
  function ProcessByCombinedSku(groups: Groups, cache: Cache, stats: Stats, capacity: nat, useCache: bool,
                                fmt: LabelFormat, fetch: Fetcher): (r: Run)
    requires cache.Valid() && groups.Valid()
    ensures r.cache.Valid() && WellFormed(r.result)
    ensures r.stats.Calls() == stats.Calls() + ItemCount(groups, groups.keys)
    ensures r.result.report.Failure? ==> r.result == EmptyResult(NoData)
    ensures r.result.report.ByGroupReport? ==>
      && r.result.report.groupCount == groups.Size()
      && r.result.report.batchCount == |r.result.batches|
      && |r.result.report.lines| == groups.Size()
      && (forall i :: 0 <= i < groups.Size() ==> r.result.report.lines[i].key == groups.keys[i])
      && r.result.report.hits == r.stats.hits && r.result.report.misses == r.stats.misses
      && r.result.report.ratio == HitRatio(r.stats)
      && r.result.report.ratio.Percent?
      && r.result.report.imageCount == Sum(SucceededCounts(r.result.report.lines))
    ensures !r.result.report.MergedReport?
  {
    var run := RunGroups(groups, groups.keys, cache, stats, capacity, useCache, fmt, fetch);
    if |run.batches| == 0 then Run(EmptyResult(NoData), run.cache, run.stats)
    else
      var total := TotalFrames(run.batches);
      TotalFramesIsSum(run.batches, SucceededCounts(run.lines));
      var report := ByGroupReport(groups.Size(), |run.batches|, total, run.lines,
                                  run.stats.hits, run.stats.misses, HitRatio(run.stats));
      Run(LoadResult(run.batches, run.labels, report), run.cache, run.stats)
  }

  /** The number of images over all the batches. */
  function TotalFrames(batches: seq<Batch>): nat {
    if |batches| == 0 then 0 else |batches[0].frames| + TotalFrames(batches[1..])
  }

  /** The group-wise run in terms of the steps: it falls back exactly when no
      group produced a batch; otherwise its batches and label strings are
      those of the groups that produced one, in key order, and line `i` is
      group `i`'s line. The cache and counters are what the last group left. */
  lemma ProcessByCombinedSkuFollowsSteps(groups: Groups, cache: Cache, stats: Stats, capacity: nat, useCache: bool,
                                         fmt: LabelFormat, fetch: Fetcher)
    requires cache.Valid() && groups.Valid()
    ensures var s := Steps(groups, groups.keys, cache, stats, capacity, useCache, fmt, fetch);
      var r := ProcessByCombinedSku(groups, cache, stats, capacity, useCache, fmt, fetch);
      && (r.result.report.Failure? <==> forall i :: 0 <= i < |s| ==> s[i].batch.None?)
      && (r.result.report.ByGroupReport? ==>
        && r.result.batches == Batches(s) && r.result.labels == LabelStrings(s)
        && forall i :: 0 <= i < |s| ==> r.result.report.lines[i] == s[i].line)
      && (|s| > 0 ==> r.cache == s[|s| - 1].cache && r.stats == s[|s| - 1].stats)
  {
    var s := Steps(groups, groups.keys, cache, stats, capacity, useCache, fmt, fetch);
    RunGroupsFollowsSteps(groups, groups.keys, cache, stats, capacity, useCache, fmt, fetch);
    NoBatches(s);
  }

  /* ----- The merged run ----- */

  /** Every item of every group, in key order and item order. */
  function AllItems(groups: Groups, keys: seq<string>): (items: seq<Item>)
    requires forall k :: k in keys ==> k in groups.values
    ensures |items| == ItemCount(groups, keys)
  {
    if |keys| == 0 then [] else groups.values[keys[0]] + AllItems(groups, keys[1..])
  }

  lemma {:induction false} AllItemsAppend(groups: Groups, a: seq<string>, b: seq<string>)
    requires forall k :: k in a ==> k in groups.values
    requires forall k :: k in b ==> k in groups.values
    ensures AllItems(groups, a + b) == AllItems(groups, a) + AllItems(groups, b)
    decreases |a|
  {
    if |a| == 0 {
      assert a + b == b;
    } else {
      var ab := a + b;
      assert ab[0] == a[0] && ab[1..] == a[1..] + b;
      assert AllItems(groups, ab) == groups.values[a[0]] + AllItems(groups, a[1..] + b);
      AllItemsAppend(groups, a[1..], b);
      ConcatAssoc(groups.values[a[0]], AllItems(groups, a[1..]), AllItems(groups, b));
    }
  }

  lemma ConcatAssoc<T>(x: seq<T>, y: seq<T>, z: seq<T>)
    ensures x + (y + z) == (x + y) + z
  {
  }

  /** The merged item list holds each group's items as one run, in key
      order: the items of group `keys[i]` come right after those of the
      groups before it. */
  lemma AllItemsSlices(groups: Groups, keys: seq<string>, i: nat)
    requires forall k :: k in keys ==> k in groups.values
    requires i < |keys|
    ensures var all := AllItems(groups, keys);
      var at := ItemCount(groups, keys[..i]);
      var group := groups.values[keys[i]];
      at + |group| <= |all| && all[at..at + |group|] == group
  {
    var pre, post := keys[..i], keys[i..];
    SplitAt(keys, i);
    AllItemsAppend(groups, pre, post);
    assert post[0] == keys[i] && post[1..] == keys[i + 1..];
    assert AllItems(groups, post) == groups.values[keys[i]] + AllItems(groups, keys[i + 1..]);
    MiddleSlice(AllItems(groups, pre), groups.values[keys[i]], AllItems(groups, keys[i + 1..]));
  }

  lemma SplitAt<T>(s: seq<T>, i: nat)
    requires i <= |s|
    ensures s[..i] + s[i..] == s
    ensures forall x :: x in s[..i] ==> x in s
    ensures forall x :: x in s[i..] ==> x in s
  {
  }

  lemma MiddleSlice<T>(x: seq<T>, y: seq<T>, z: seq<T>)
    ensures |x| + |y| <= |x + (y + z)| && (x + (y + z))[|x|..|x| + |y|] == y
  {
  }

  /** Whether all the images have one size, so that `np.stack` accepts them. */
  predicate SameSize(fetched: seq<Fetched>) {
    forall i :: 0 <= i < |fetched| ==> fetched[i].image == fetched[0].image
  }

  /** The report lines of the merged run: each group with its number of
      parsed items, fetched or not. */
  function ListedLines(groups: Groups): seq<GroupLine>
    requires groups.Valid()
  {
    seq(groups.Size(), i requires 0 <= i < groups.Size() =>
      Listed(groups.keys[i], |groups.values[groups.keys[i]]|))
  }

  /** The tail of `process_all_in_one` once the downloads are done: the
      fallback when nothing came back, the stacking failure when the images
      differ in size, and otherwise one batch of the images at their own size
      with one label string. */
  function MergedResult(fetched: seq<Fetched>, groups: Groups, fmt: LabelFormat): (r: LoadResult)
    requires groups.Valid()
    ensures WellFormed(r) && !r.report.ByGroupReport?
    ensures r.report.Failure? <==> |fetched| == 0 || !SameSize(fetched)
    ensures |fetched| == 0 ==> r == EmptyResult(NoData)
    ensures |fetched| > 0 && !SameSize(fetched) ==> r == EmptyResult(LoadFailed(BatchShapeMismatch))
    ensures r.report.MergedReport? ==>
      && |r.batches| == 1
      && r.batches[0].width == fetched[0].image.width && r.batches[0].height == fetched[0].image.height
      && r.batches[0].frames == seq(|fetched|, i requires 0 <= i < |fetched| => Native(fetched[i].image))
      && Split(r.labels[0], ',') == Labels(fmt, Items(fetched))
      && r.report == MergedReport(groups.Size(), |fetched|, ListedLines(groups))
  {
    if |fetched| == 0 then EmptyResult(NoData)
    else if !SameSize(fetched) then EmptyResult(LoadFailed(BatchShapeMismatch))
    else
      var img := fetched[0].image;
      var frames := seq(|fetched|, i requires 0 <= i < |fetched| => Native(fetched[i].image));
      var labels := LabelString(fmt, Items(fetched));
      var b := Batch(img.width, img.height, frames);
      assert BatchOk(b, labels) by {
        NativeFramesFit(fetched, frames);
      }
      LoadResult([b], [labels], MergedReport(groups.Size(), |frames|, ListedLines(groups)))
  }

  /** Images of one size, each at its own size, all fit the first one's
      canvas. */
  lemma NativeFramesFit(fetched: seq<Fetched>, frames: seq<Frame>)
    requires |fetched| > 0 && SameSize(fetched) && |frames| == |fetched|
    requires forall i :: 0 <= i < |frames| ==> frames[i] == Native(fetched[i].image)
    ensures forall i :: 0 <= i < |frames| ==>
      FrameFits(frames[i], fetched[0].image.width, fetched[0].image.height)
  {
  }

  /** `process_all_in_one`: every item of every group downloaded in order,
      with no resizing, into one batch with one label string; the stacking
      raises when the images differ in size, which the caller turns into the
      failure fallback. */
  function ProcessAllInOne(groups: Groups, cache: Cache, stats: Stats, capacity: nat, useCache: bool,
                           fmt: LabelFormat, fetch: Fetcher): (r: Run)
    requires cache.Valid() && groups.Valid()
    ensures r.cache.Valid() && WellFormed(r.result) && !r.result.report.ByGroupReport?
    ensures r.stats.Calls() == stats.Calls() + ItemCount(groups, groups.keys)
    ensures var items := AllItems(groups, groups.keys);
      var run := DownloadAll(cache, stats, capacity, Urls(items), useCache, fetch);
      var nothing := forall i :: 0 <= i < |items| ==> run.images[i].None?;
      && r.cache == run.cache && r.stats == run.stats
      && (r.result.report.Failure? <==> nothing || !SameSize(Survivors(run.images, items).fetched))
      && (nothing ==> r.result == EmptyResult(NoData))
      && (!nothing && r.result.report.Failure? ==> r.result == EmptyResult(LoadFailed(BatchShapeMismatch)))
  {
    var items := AllItems(groups, groups.keys);
    var run := DownloadAll(cache, stats, capacity, Urls(items), useCache, fetch);
    var kept := Survivors(run.images, items);
    NothingSurvives(run.images, items);
    Run(MergedResult(kept.fetched, groups, fmt), run.cache, run.stats)
  }

  /** In the merged batch the `j`-th frame and the `j`-th label both come from
      the `j`-th item, in key and item order, whose download returned an
      image; each frame is that image at its own size, and the report lists
      every group with its number of parsed items. */
  lemma MergedRunPairsLabelsWithFrames(groups: Groups, cache: Cache, stats: Stats, capacity: nat, useCache: bool,
                                       fmt: LabelFormat, fetch: Fetcher)
    requires cache.Valid() && groups.Valid()
    ensures var items := AllItems(groups, groups.keys);
      var run := DownloadAll(cache, stats, capacity, Urls(items), useCache, fetch);
      var from := Survivors(run.images, items).from;
      var r := ProcessAllInOne(groups, cache, stats, capacity, useCache, fmt, fetch).result;
      r.report.MergedReport? ==>
        && r.report.groupCount == groups.Size() && r.report.imageCount == |from|
        && |r.report.lines| == groups.Size()
        && (forall i :: 0 <= i < groups.Size() ==>
              r.report.lines[i] == Listed(groups.keys[i], |groups.values[groups.keys[i]]|))
        && |r.batches| == 1
        && var labels := Split(r.labels[0], ',');
        && |labels| == |r.batches[0].frames| == |from|
        && forall j :: 0 <= j < |from| ==>
          && r.batches[0].frames[j].Native?
          && run.images[from[j]] == Some(r.batches[0].frames[j].source)
          && labels[j] == Label(fmt, items[from[j]].pcs)
  {
    var items := AllItems(groups, groups.keys);
    var run := DownloadAll(cache, stats, capacity, Urls(items), useCache, fetch);
    var kept := Survivors(run.images, items);
    var r := MergedResult(kept.fetched, groups, fmt);
    assert ProcessAllInOne(groups, cache, stats, capacity, useCache, fmt, fetch).result == r;
    MergedPairsUp(run.images, items, kept, groups, fmt, r);
  }

  /** The merged batch and its label string list the surviving downloads in
      the same order. */
  lemma MergedPairsUp(images: seq<Option<Image>>, items: seq<Item>, kept: Kept, groups: Groups, fmt: LabelFormat,
                      r: LoadResult)
    requires groups.Valid() && |kept.fetched| == |kept.from|
    requires forall j :: 0 <= j < |kept.from| ==>
      kept.from[j] < |items| && items[kept.from[j]] == kept.fetched[j].item
      && kept.from[j] < |images| && images[kept.from[j]] == Some(kept.fetched[j].image)
    requires r == MergedResult(kept.fetched, groups, fmt)
    ensures r.report.MergedReport? ==>
      && r.report.groupCount == groups.Size() && r.report.imageCount == |kept.from|
      && |r.report.lines| == groups.Size()
      && (forall i :: 0 <= i < groups.Size() ==>
            r.report.lines[i] == Listed(groups.keys[i], |groups.values[groups.keys[i]]|))
      && |r.batches| == 1
      && var labels := Split(r.labels[0], ',');
      && |labels| == |r.batches[0].frames| == |kept.from|
      && forall j :: 0 <= j < |kept.from| ==>
        && r.batches[0].frames[j].Native?
        && images[kept.from[j]] == Some(r.batches[0].frames[j].source)
        && labels[j] == Label(fmt, items[kept.from[j]].pcs)
  {
    if r.report.MergedReport? {
      var labels := Split(r.labels[0], ',');
      forall j | 0 <= j < |kept.from|
        ensures labels[j] == Label(fmt, items[kept.from[j]].pcs)
      {
        assert Items(kept.fetched)[j] == kept.fetched[j].item;
      }
    }
  }

  /* ----- load_sku_data ----- */

  /** `output_mode`: "by_combined_sku" selects the group-wise run; any other
      value selects the merged run. */
  datatype OutputMode = ByCombinedSku | AllInOne

  /** The node's parameters other than the sheet, the cache and the network. */
  datatype Params = Params(combinedCol: string, skuCol: string, pcsCol: string, urlCol: string,
                           startRow: int, useCache: bool, capacity: nat, fmt: LabelFormat,
                           mode: OutputMode, filter: string)

  datatype Load = Load(result: LoadResult, cache: Cache, stats: Stats)

  /** The part of `load_sku_data` after parsing (nodes.py:226-238): no group
      at all ends in the "无数据" fallback with the cache untouched;
      otherwise the chosen mode runs. */
  function Dispatch(groups: Groups, p: Params, cache: Cache, stats: Stats, fetch: Fetcher): (l: Load)
    requires cache.Valid() && groups.Valid()
    ensures l.cache.Valid() && WellFormed(l.result)
    ensures groups.Size() == 0 ==> l == Load(EmptyResult(NoData), cache, stats)
    ensures l.stats.Calls() == stats.Calls() + ItemCount(groups, groups.keys)
    ensures p.mode == ByCombinedSku ==> !l.result.report.MergedReport?
    ensures p.mode == AllInOne ==> !l.result.report.ByGroupReport?
    ensures groups.Size() > 0 && p.mode == ByCombinedSku ==>
      var run := ProcessByCombinedSku(groups, cache, stats, p.capacity, p.useCache, p.fmt, fetch);
      l == Load(run.result, run.cache, run.stats)
    ensures groups.Size() > 0 && p.mode == AllInOne ==>
      var run := ProcessAllInOne(groups, cache, stats, p.capacity, p.useCache, p.fmt, fetch);
      l == Load(run.result, run.cache, run.stats)
  {
    if groups.Size() == 0 then Load(EmptyResult(NoData), cache, stats)
    else if p.mode == ByCombinedSku then
      var run := ProcessByCombinedSku(groups, cache, stats, p.capacity, p.useCache, p.fmt, fetch);
      Load(run.result, run.cache, run.stats)
    else
      var run := ProcessAllInOne(groups, cache, stats, p.capacity, p.useCache, p.fmt, fetch);
      Load(run.result, run.cache, run.stats)
  }

  /** `load_sku_data`: the counters restart at zero, the capacity is taken
      from the parameters, and the cache carries over from earlier loads. An
      unreadable sheet (`None`) or a start row before the sheet ends in the
      failure fallback; otherwise the parsed groups are dispatched, and the
      counters then count exactly this load's downloads. Every outcome is
      well formed. */
  function LoadSkuData(sheet: Option<seq<Row>>, p: Params, cache: Cache, fetch: Fetcher): (l: Load)
    requires cache.Valid()
    ensures l.cache.Valid() && WellFormed(l.result)
    ensures sheet.None? ==>
      l.result == EmptyResult(LoadFailed(SourceUnreadable)) && l.cache == cache && l.stats == Stats(0, 0)
    ensures sheet.Some? && p.startRow - 1 < -|sheet.value| ==>
      l.result == EmptyResult(LoadFailed(RowIndexOutOfRange)) && l.cache == cache && l.stats == Stats(0, 0)
    ensures sheet.Some? && p.startRow - 1 >= -|sheet.value| ==>
      var groups := ParseSkuGroups(sheet.value, p.combinedCol, p.skuCol, p.pcsCol, p.urlCol,
                                   p.startRow, p.filter).value.groups;
      l == Dispatch(groups, p, cache, Stats(0, 0), fetch) && l.stats.Calls() == ItemCount(groups, groups.keys)
  {
    match sheet
    case None => Load(EmptyResult(LoadFailed(SourceUnreadable)), cache, Stats(0, 0))
    case Some(rows) =>
      match ParseSkuGroups(rows, p.combinedCol, p.skuCol, p.pcsCol, p.urlCol, p.startRow, p.filter)
      case None => Load(EmptyResult(LoadFailed(RowIndexOutOfRange)), cache, Stats(0, 0))
      case Some(st) => Dispatch(st.groups, p, cache, Stats(0, 0), fetch)
  }

  /** An empty sheet ends in the "无数据" fallback when scanned from a row at
      or after the first, and in the failure fallback otherwise; either way no
      download is attempted and the cache is kept. */
  lemma EmptySheetFallsBack(p: Params, cache: Cache, fetch: Fetcher)
    requires cache.Valid()
    ensures var l := LoadSkuData(Some([]), p, cache, fetch);
      && l.cache == cache && l.stats == Stats(0, 0)
      && l.result == EmptyResult(if p.startRow >= 1 then NoData else LoadFailed(RowIndexOutOfRange))
  {
    if p.startRow >= 1 {
      var r := ParseSkuGroups([], p.combinedCol, p.skuCol, p.pcsCol, p.urlCol, p.startRow, p.filter);
      assert r.value.parsed + r.value.skipped == 0;
      assert r.value.groups.Size() == 0;
    }
  }

  /* ----- is_url ----- */

  /** ASCII lower-casing of one character. No other character lower-cases
      into one of the letters of "http" or "https", so only ASCII matters for
      `IsUrl`. */
  function LowerChar(c: char): char {
    if 'A' <= c <= 'Z' then (c as int + 32) as char else c
  }

  /** `str.lower()`, character by character. */
  function LowerAscii(s: string): string {
    seq(|s|, i requires 0 <= i < |s| => LowerChar(s[i]))
  }

  /** `is_url(path)`: after stripping and lower-casing, the text starts with
      "http://" or "https://". */
  predicate IsUrl(path: string) {
    path != "" && (StartsWith(LowerAscii(Strip(path)), "http://") || StartsWith(LowerAscii(Strip(path)), "https://"))
  }

  /** Whether `s` starts with `scheme` in any letter case. */
  predicate SchemeAnyCase(s: string, scheme: string) {
    |scheme| <= |s| && forall i :: 0 <= i < |scheme| ==> LowerChar(s[i]) == scheme[i]
  }

  /** `is_url` is a case-insensitive scheme match on the stripped text. */
  lemma IsUrlIgnoresCase(path: string)
    ensures IsUrl(path) <==>
      path != "" && (SchemeAnyCase(Strip(path), "http://") || SchemeAnyCase(Strip(path), "https://"))
  {
    LowerStartsWith(Strip(path), "http://");
    LowerStartsWith(Strip(path), "https://");
  }

  lemma LowerStartsWith(s: string, scheme: string)
    ensures StartsWith(LowerAscii(s), scheme) <==> SchemeAnyCase(s, scheme)
  {
    if SchemeAnyCase(s, scheme) {
      assert LowerAscii(s)[..|scheme|] == scheme;
    }
    if StartsWith(LowerAscii(s), scheme) {
      assert forall i :: 0 <= i < |scheme| ==> LowerAscii(s)[..|scheme|][i] == scheme[i];
    }
  }

  /** The row gate and `is_url` disagree both ways. "httpx" passes the gate
      but is no url: */
  lemma GatePassesNonUrl()
    ensures UrlAccepted("httpx") && !IsUrl("httpx")
  {
    NoEdgeSpaceStripsToItself("httpx");
    assert |LowerAscii(Strip("httpx"))| == 5;
  }

  /** ... and "HTTP://a" is a url the gate rejects. */
  lemma GateRejectsUpperScheme()
    ensures IsUrl("HTTP://a") && !UrlAccepted("HTTP://a")
  {
    var s := "HTTP://a";
    NoEdgeSpaceStripsToItself(s);
    assert s[0] == 'H';
    LowerKeepsPrefix(s, "HTTP://", "http://");
  }

  /** Lower-casing text that starts with `p` gives text that starts with
      `p` lower-cased; `q` is that lower-cased prefix. */
  lemma LowerKeepsPrefix(s: string, p: string, q: string)
    requires StartsWith(s, p) && |q| == |p|
    requires forall i :: 0 <= i < |p| ==> q[i] == LowerChar(p[i])
    ensures StartsWith(LowerAscii(s), q)
  {
    assert forall i :: 0 <= i < |p| ==> p[i] == s[i];
  }

  /** A stripped url with a lower-case "http://" or "https://" scheme passes
      both checks. */
  lemma LowerSchemePassesBoth(url: string)
    requires Strip(url) == url
    requires StartsWith(url, "http://") || StartsWith(url, "https://")
    ensures UrlAccepted(url) && IsUrl(url)
  {
    var p := if StartsWith(url, "http://") then "http://" else "https://";
    LowerKeepsScheme(url, p);
    SchemeHasHttpPrefix(url);
    assert StartsWith(LowerAscii(Strip(url)), p);
  }

  /** The lower-case schemes are unchanged by lower-casing. */
  lemma LowerKeepsScheme(s: string, p: string)
    requires p == "http://" || p == "https://"
    requires StartsWith(s, p)
    ensures StartsWith(LowerAscii(s), p)
  {
    assert forall i :: 0 <= i < |p| ==> p[i] == s[i];
  }

  lemma SchemeHasHttpPrefix(url: string)
    requires StartsWith(url, "http://") || StartsWith(url, "https://")
    ensures UrlAccepted(url)
  {
    var n := if StartsWith(url, "http://") then 7 else 8;
    assert url[0] == 'h' && url[1] == 't' && url[2] == 't' && url[3] == 'p' by {
      assert url[..n][..4] == "http";
    }
    assert url[..4] == "http";
  }

  /** Agreeing on acceptance is not agreeing on the scheme: "httpS://a"
      passes both checks without starting with "https://". */
  lemma BothAcceptMixedCaseScheme()
    ensures UrlAccepted("httpS://a") && IsUrl("httpS://a")
    ensures !StartsWith("httpS://a", "https://")
  {
    assert "httpS://a"[4] == 'S';
    NoEdgeSpaceStripsToItself("httpS://a");
    assert LowerAscii("httpS://a")[..8] == "https://";
  }
}
