# Excel SKU loader — a Dafny model

This project models the decision logic of `ExcelSKULoader` from the ComfyUI
node pack `comfyui-excel-product-collage` (`nodes.py`). The node reads a
sheet of product rows and groups them by a "combined SKU". It downloads each
row's image through a bounded cache and pads every image of a group onto one
common canvas. It emits one image batch and one comma-joined label string per
group (or one merged batch), together with a report. The model proves
properties of that logic.

Modules, one per file:

- `Wrappers`: `Option`.
- `OrderedMaps`: Python's insertion-ordered `dict`, used both by the group
  table and by the image cache.
- `Text`: `str.strip`, `str.startswith`, `str(int)`, `int(str)`, `",".join`
  and `str.split(",")`.
- `Cells`: a data-frame cell seen through `pd.isna`, `str` and `int`.
- `SkuParser`: `parse_sku_groups`. It is the row loop (`Step`, `ParseAll`)
  plus a row-by-row reference description (`Outcomes`, `GroupKeys`,
  `GroupItems`) that the loop is proved to compute.
- `ImageCache`: the bookkeeping of `download_image`. The network is a fetch
  oracle `(url, attempt) -> Option<Image>`.
- `Geometry`: `resize_and_pad` and the group canvas, in exact integer
  arithmetic.
- `Loader`:
  - labels;
  - the group-wise run (`process_by_combined_sku`);
  - the merged run (`process_all_in_one`);
  - `create_empty_result`;
  - `load_sku_data`;
  - `is_url`.

Behaviour of the code worth noting:

- The merged run stacks every fetched image at its own size. `np.stack`
  raises as soon as two sizes differ. `load_sku_data` catches the exception
  and falls back (`BatchShapeMismatch`). It does not produce a merged batch of
  mixed sizes.
- `start_row <= 0` makes `range(start_row - 1, n)` start at a negative index,
  and `df.iloc` counts that index from the end. The rows are then visited
  twice in part. An index before the first row raises `IndexError`, which
  ends in the failure fallback.
- The current combined SKU is updated before the filter is applied. A
  filtered-out key is therefore still inherited by the blank rows below it,
  and those rows are filtered out too.
- A group's entry is created before the sku and url gates, so a group can
  have no items. Such a group is reported as failed in the group-wise run.
- When the cache is empty and its capacity is 0, the eviction raises
  `StopIteration`, which is swallowed like a failed download: the image is
  lost and a miss is counted. The node's inputs never give capacity 0
  (`cache_size` is at least 10), so this case is unreachable in practice.

## Model

| member | source | states |
|---|---|---|
| OrderedMaps.Put | nodes.py:470-472 | `d[k] = v`: a new key goes to the end of the order and an existing key keeps its place; the keys stay distinct and match the mapping |
| OrderedMaps.RemoveFirst | nodes.py:535-536 | `del d[next(iter(d))]` removes exactly the earliest-inserted key and its value |
| Text.Strip | nodes.py:459 | the result is a slice of the input; everything cut off at either end is whitespace; the result neither starts nor ends with whitespace |
| Text.StripIdempotent | nodes.py:459-466 | stripping is idempotent: a key, once stripped, equals its own strip |
| Text.IntToString | nodes.py:302 | `str(i)` is non-empty, all digits apart from a leading minus sign, has a minus sign exactly when `i` is negative, and is canonical: no leading zero unless the numeral is "0", and never "-0" |
| Text.ParseInt | nodes.py:483 | `int(s)` succeeds exactly when `s`, with the whitespace `int` skips removed from both ends, is a non-empty run of ASCII digits with an optional sign; the value is that numeral's |
| Text.IntSkipsOnlyItsWhitespace | nodes.py:483 | `int` skips fewer characters than `strip`: " 5\t" parses to 5, but U+001C, which `strip` removes, makes `int` fail |
| Text.ParseIntOfIntToString | nodes.py:302 | round trip: `int(str(i)) == i` for every integer |
| Text.SplitJoin | nodes.py:309 | splitting a comma-join of comma-free parts at the commas gives back exactly the parts |
| Cells.Render | nodes.py:452 | `str` of a missing cell is "nan", of text is the text, of an integer cell is the canonical numeral `str(n)`, which `int` parses back to it, and of a whole float is the canonical numeral of its value followed by ".0"; so `Int(5)` and `Str("5")` render alike |
| Cells.ToInt | nodes.py:483 | `int` of a missing cell raises, a numeric cell converts exactly, a text cell converts as `int` of its text, and on an integer cell it agrees with parsing that cell's `str` |
| SkuParser.ColumnIndex | nodes.py:430-439 | the index is either the role's default or the position in A..R of the upper-cased single letter; every name other than one such letter gives the default |
| SkuParser.ColumnIndexOfLetter | nodes.py:430-434 | each of A..R, upper- or lower-case, selects its own column 0..17 |
| SkuParser.ResolveColumns | nodes.py:436-439 | all four columns are below 18; a one-character name that upper-cases to a letter A..R selects that letter's column ("E" selects 4), and any other name falls back to 0, 1, 2 or 3 for combined, sku, pcs and url |
| SkuParser.ReadKey | nodes.py:449-460 | a column past the row's end is reported exactly when it is; the cell is blank exactly when it is missing or its stripped `str` is "" or "nan"; otherwise the key is that stripped text |
| SkuParser.ReadText | nodes.py:475-490 | the text of a sku or url cell present in the row is `str(cell).strip()`: without surrounding whitespace, and "nan" for a missing cell; it is "" for a column past the row's end |
| SkuParser.MissingCellRejected | nodes.py:475-491 | a sku or url cell past the row's end or missing fails its gate |
| SkuParser.FilterPassesOneKey | nodes.py:466 | a blank filter lets every key through; any other filter lets through exactly the key equal to its stripped text |
| SkuParser.EnsureGroup | nodes.py:471-472 | an existing group is left as it is; a new key gets an empty group at the end of the order |
| SkuParser.UrlGateIsHttpPrefix | nodes.py:490-491 | the row-level url gate accepts exactly the texts that start with the lower-case "http" |
| SkuParser.PcsOf | nodes.py:481-487 | the piece count is at least 1; it is the cell's integer when the cell exists, converts and is positive, and 1 otherwise |
| SkuParser.Admit | nodes.py:465-502 | once a key is resolved, the row counts exactly once as parsed or skipped, the current key is untouched and the table stays a valid ordered map |
| SkuParser.AdmitEffect | nodes.py:465-502 | a skipped row changes no group; a gate-dropped row only creates its group; an accepted row creates its group if needed and appends its item, and counts as parsed |
| SkuParser.Step | nodes.py:445-502 | every loop iteration counts its row exactly once, as parsed or as skipped |
| SkuParser.ParseAll | nodes.py:441-502 | after the loop, parsed plus skipped equals the number of rows scanned |
| SkuParser.Scan | nodes.py:445-446 | the rows visited by `range(start_row - 1, len(df))` under `iloc` indexing, negative indices counted from the end; `None` (IndexError) exactly when the start lies before the sheet |
| SkuParser.ParseSkuGroups | nodes.py:425-507 | fails exactly on the IndexError start rows; otherwise the groups form a valid ordered map and parsed plus skipped equals the number of rows from `start_row - 1` to the end |
| SkuParser.StepAgrees | nodes.py:445-502 | one loop iteration keeps the state equal to the row-by-row description: last non-blank key, groups in first-admitted order, items in row order, parsed count |
| SkuParser.ParseAllMatchesOutcomes | nodes.py:441-502 | the loop computes the row-by-row description for every sheet: the current key is the last non-blank key, the keys are those of the kept and gate-dropped rows in first-occurrence order, each group holds its accepted items in row order, and parsed counts the accepted rows |
| SkuParser.AcceptStep | nodes.py:470-502 | a row that resolves to a key, passes the filter and both gates appends its item to that group, which is created at the end of the order if new |
| SkuParser.TouchStep | nodes.py:449-478 | a row dropped by the sku or url gate, whether its key is its own or inherited from the row above, still creates its group, adds no item and counts as skipped |
| SkuParser.FilteredStep | nodes.py:458-468 | a filtered-out row still becomes the current key but changes nothing else except the skipped count |
| SkuParser.ReadSheetRow | nodes.py:449-494 | how a row of the default columns reads: its key, sku, url and piece count, and a blank key cell |
| SkuParser.ReadPlainText | nodes.py:475-490 | a cell holding text without surrounding whitespace reads back as that text |
| SkuParser.ReadPlainKey | nodes.py:458-459 | a combined-SKU cell holding such text, neither "" nor "nan", is that key |
| SkuParser.SheetRowReads | nodes.py:474-494 | a well-formed row of the default columns yields its item |
| SkuParser.ParseSkuGroupsMatchesOutcomes | nodes.py:425-507 | for any column letters, start row and filter, the parse is the loop over the scanned rows with the resolved columns, and that loop computes the row-by-row description |
| SkuParser.DefaultSheet | nodes.py:430-446 | with the column letters A to D and start row 1, the parse folds every row of the sheet with columns 0 to 3 |
| SkuParser.InheritAcrossBlank | nodes.py:449-457 | key, blank, key: the blank row joins the group of the row above, which gives two groups in order and no skip |
| SkuParser.FilterDropsInheritingRow | nodes.py:449-468 | a blank row under a filtered-out key inherits that key and is filtered out as well |
| SkuParser.BlankRowJoinsGroupAbove | nodes.py:425-507 | a three-row sheet with a blank middle key parses to the groups [k1, k2] with items [a, b] and [c], parsed 3, skipped 0 |
| SkuParser.FilteredKeyStillInherited | nodes.py:452-468 | the same sheet filtered to k2 keeps only group k2 with [c] and skips the other two rows, the blank one by inheritance of the filtered key |
| SkuParser.BlankSkuCreatesEmptyGroup | nodes.py:470-478 | a row with a key and a blank sku leaves its group in the table with no items |
| SkuParser.OneTouchedRow | nodes.py:470-478 | one gate-dropped row gives one empty group, parsed 0, skipped 1 |
| ImageCache.DownloadImage | nodes.py:509-545 | a hit (only with the cache on) returns the cached image, counts a hit and leaves the cache alone; every other call counts one miss and returns the fetch's result (or none); a failure or a disabled cache leaves the cache unchanged; a cached image is stored under its url; the size never exceeds the larger of the old size and the capacity |
| ImageCache.DownloadInsertsAtEnd | nodes.py:533-538 | a cached new download goes to the end of the order after evicting exactly the oldest entry when the cache is full |
| ImageCache.DownloadAll | nodes.py:264-269 | downloading a list counts one call per url, returns one result per url and never grows the cache past the larger of its size and the capacity; with the cache off it leaves the cache and the hit count unchanged |
| ImageCache.DownloadAllAppend | nodes.py:264-269 | downloading a list is downloading its first part and then, from the cache and counters that left, the rest |
| ImageCache.DownloadAllStepwise | nodes.py:264-269 | the i-th image is what `download_image` returns for the i-th url against the cache and counters left by the first i calls |
| ImageCache.DownloadAllUncached | nodes.py:512-540 | with the cache off the i-th image is the (misses + i)-th request's answer for the i-th url, every call is a miss and the cache is untouched |
| ImageCache.DownloadAllServesCached | nodes.py:512-515 | with the cache on, a url that is cached when its turn comes gets the cached image |
| ImageCache.DownloadAllKeepsNewest | nodes.py:533-538 | first in, first out: caching new, distinct, always-downloadable urls into a cache no fuller than its capacity leaves exactly the newest `capacity` keys of the old order followed by the urls, with no hits |
| ImageCache.NewestIsSuffix | nodes.py:533-536 | the entries that survive eviction are the last `min(n, capacity)` ones in insertion order |
| ImageCache.NewestOfNewest | nodes.py:533-538 | evicting down to the capacity after each insertion keeps the same entries as evicting once after all of them |
| ImageCache.FailedDownloadsKeepCache | nodes.py:542-545 | downloads that all fail leave the cache unchanged, count one miss each and return no image |
| ImageCache.ThreeUrlsCapacityTwo | nodes.py:533-538 | capacity 2 and urls U1, U2, U3: U1 is evicted, [U2, U3] remain in order after three misses |
| Geometry.ScaledSide | nodes.py:359-360 | the truncated scaled length fits the target and is the floor of the exact scaled length |
| Geometry.CentreOffset | nodes.py:369-370 | the centring offset keeps the image inside and splits the slack evenly, with the odd pixel on the far side |
| Geometry.ResizeAndPad | nodes.py:348-375 | the placed image lies inside the tw x th canvas and is centred on both axes (slacks differ by at most one); the limiting side fills the canvas and the other side is the floor of its exact scaled length |
| Geometry.LargestFit | nodes.py:354-360 | the scale chosen is the largest that fits: at any scale at which the image fits, the truncated size is no larger than the placed size |
| Geometry.ScaleAtLeastOne | nodes.py:354-360 | an image no larger than the canvas is never shrunk |
| Geometry.SameAspectFills | nodes.py:354-370 | an image with the canvas's aspect ratio fills the whole canvas at offset (0, 0) |
| Geometry.SeqMax | nodes.py:283-284 | `max` is at least every element and is one of them |
| Geometry.Canvas | nodes.py:283-284 | the canvas is at least as wide and as tall as every image of the group, and each side is attained by some image |
| Geometry.GroupNeverShrinks | nodes.py:283-290 | every image of a group, placed on the group canvas, keeps at least its own size and is not cropped |
| Geometry.TwoImageCanvas | nodes.py:283-290 | 100x200 and 300x150 share a 300x200 canvas and are placed at (100, 0) and (0, 25) |
| Loader.Label | nodes.py:87 | a label has no comma, and the template's fixed text surrounds exactly `str(pcs)` |
| Loader.LabelRoundTrip | nodes.py:302 | reading a label back through its template gives the piece count |
| Loader.LabelString | nodes.py:309 | the comma-joined label string splits back into exactly the batch's labels, in order |
| Loader.Survivors | nodes.py:263-275 | the fetched images, each with its item, in item order: exactly the positions whose download returned an image |
| Loader.NothingSurvives | nodes.py:271-277 | no image survives exactly when every download returned nothing |
| Loader.ComposeBatch | nodes.py:282-306 | the batch has one frame per fetched image, in order, on the group canvas; every image is resized onto it without shrinking or cropping |
| Loader.ComposeBatchPlacement | nodes.py:287-290 | each frame of a group's batch is its image as `resize_and_pad` places it onto the batch's canvas |
| Loader.PlacedFramesFit | nodes.py:288-290 | each frame placed on the group canvas holds its own image, is no smaller than that image and fits the canvas |
| Loader.LineText | nodes.py:278 | the text of a successful line starts with "✅ ", of a failed line with "❌ ", and of a merged line with the group key |
| Loader.HitRatio | nodes.py:336 | the ratio is "N/A" exactly when there were no download calls; otherwise it is hits over hits plus misses |
| Loader.FailureText | nodes.py:551 | the fallback's message starts with "❌ " |
| Loader.EmptyResult | nodes.py:547-551 | the fallback is one batch of one black 512x512 image, one empty label and the message |
| Loader.RunGroup | nodes.py:259-313 | a group's line carries its key; it fails exactly when it has no batch; a batch has between 1 and the item count of frames and one label per frame; an empty group fails; every item is one download call |
| Loader.RunGroupOutcome | nodes.py:259-313 | a group yields a batch exactly when at least one of its downloads returned an image; the batch is the surviving images resized onto their canvas, with their labels joined; the cache and counters are those the group's downloads left |
| Loader.RunGroupPairsLabelsWithFrames | nodes.py:288-310 | the j-th label and the j-th frame of a batch both come from the j-th item whose download succeeded |
| Loader.UnreachableGroupFails | nodes.py:269-280 | a group whose images can neither be read from the cache nor downloaded is reported as failed, yields no batch and leaves the cache unchanged |
| Loader.RunGroups | nodes.py:253-314 | one line per group in key order; one batch and one label string per successful group, in the same order, each sound and of the reported size; every item costs exactly one download call |
| Loader.Steps | nodes.py:253-314 | one step per group, each starting from the cache the previous group left |
| Loader.StepsChain | nodes.py:253-314 | the i-th step is group i run from the cache and counters that step i - 1 left, the first from the starting ones |
| Loader.NoBatches | nodes.py:316 | there are no batches exactly when no group produced one |
| Loader.RunGroupsFollowsSteps | nodes.py:253-314 | the loop's i-th line is group i's line; its batches and label strings are those of the groups that produced one, in key order; the cache and counters are what the last group left |
| Loader.TotalFramesIsSum | nodes.py:321 | batches of the given sizes hold the sum of those sizes in images |
| Loader.ProcessByCombinedSku | nodes.py:246-346 | the result is well formed; it is the "无数据" fallback exactly when no batch was produced; otherwise the report counts the groups and batches, lists every group in order, gives as image total the sum of the successful lines' counts and carries this run's counters, with a percentage ratio |
| Loader.ProcessByCombinedSkuFollowsSteps | nodes.py:246-346 | the run falls back exactly when no group produced a batch; otherwise its batches and label strings are the successful groups', in key order, and line i is group i's; the cache and counters are what the last group left |
| Loader.AllItems | nodes.py:384-387 | the merged run's item list has as many items as all the groups together |
| Loader.AllItemsAppend | nodes.py:384-387 | the items of two lists of keys are the first list's items followed by the second's |
| Loader.AllItemsSlices | nodes.py:384-387 | in the merged item list, group i's items appear as one run, right after the items of the groups before it |
| Loader.MergedResult | nodes.py:404-423 | nothing fetched gives the "无数据" fallback and mixed sizes give the stacking failure; otherwise there is one batch of the images at their own size, in order, with one label per image and every group listed |
| Loader.ProcessAllInOne | nodes.py:377-423 | every item of every group is downloaded once, in key and item order; the result is well formed; it is the "无数据" fallback when no download returned an image and the stacking failure when the returned images differ in size, and a merged batch otherwise |
| Loader.MergedRunPairsLabelsWithFrames | nodes.py:387-423 | in the merged batch the j-th frame is, at its own size, the image of the j-th item whose download succeeded, and the j-th label is that item's; the report lists every group with its parsed item count |
| Loader.MergedPairsUp | nodes.py:399-408 | the merged batch and its label string list the surviving downloads in the same order |
| Loader.Dispatch | nodes.py:226-237 | no group at all gives the "无数据" fallback with the cache and counters unchanged; otherwise the load is exactly the run of the selected mode (`ProcessByCombinedSku` or `ProcessAllInOne`) with its result, cache and counters, and the report kind matches the mode |
| Loader.LoadSkuData | nodes.py:149-244 | the counters restart at zero for every load; an unreadable sheet or a start row before the sheet gives the failure fallback with the cache kept and the counters at zero; otherwise the parsed groups are dispatched and the counters count exactly this load's downloads; every outcome is well formed |
| Loader.EmptySheetFallsBack | nodes.py:222-229 | an empty sheet gives the "无数据" fallback from row 1 onward and the failure fallback for a start row of 0 or less, with no download and the cache kept |
| Loader.IsUrlIgnoresCase | nodes.py:16-21 | `is_url` holds exactly for non-empty text whose stripped form starts with "http://" or "https://" in any letter case |
| Loader.LowerStartsWith | nodes.py:20-21 | lower-cased text starts with a lower-case scheme exactly when the text starts with it in any case |
| Loader.GatePassesNonUrl | nodes.py:16-21 | "httpx" passes the row-level url gate but `is_url` rejects it |
| Loader.GateRejectsUpperScheme | nodes.py:491 | "HTTP://a" is a url to `is_url` but the case-sensitive gate drops it |
| Loader.LowerSchemePassesBoth | nodes.py:16-21 | a stripped text with a lower-case "http://" or "https://" scheme passes both the gate and `is_url` |
| Loader.BothAcceptMixedCaseScheme | nodes.py:16-21 | "httpS://a" passes both checks although it does not start with "https://" |

## Left out

- Reading the workbook (`pd.read_excel`, sheet selection, file-path resolution, `IS_CHANGED`, `VALIDATE_INPUTS`, folder set-up): this is I/O. The sheet is an input, either a sequence of rows or `None` when it cannot be read.
- HTTP requests, PIL decoding, `convert('RGB')` and LANCZOS resampling: these are foreign library calls. The fetch oracle stands in for them, and images are known only by their size.
- The float conversion `/ 255.0`, grey and RGBA channel handling, and the tensors themselves: this is floating-point plumbing. A batch is its canvas size and its frames.
- The report's header lines, separators and totals text, and the one-decimal percentage: these are formatting. The report is a datatype with the same counts, lines and ratio.
- All `print` logging, and the exception text in "加载失败: …": these are console output and Python messages.
- `server.py`, the browser scripts and `__init__.py`: upload endpoint, UI widgets and registration, none of which is part of this model.
- The class-wide `_image_cache` and its counters: the model threads them as explicit values through every call. Sharing between node instances and concurrency are not modelled.
- Non-integral floats, booleans and dates as cells: only missing, text, integer and whole-float cells are modelled.
- Images of width or height 0: images have positive sides.
- A `label_format` other than the five listed templates.
- `output_mode` values other than "by_combined_sku": all of them select the merged run, which is modelled as one mode.
- Text.ParseInt: does not accept the underscores or non-ASCII digits that Python's `int` also accepts. Sheet cells in this role are plain numerals. It also has no length limit, while CPython 3.11 and later by default raise ValueError for a numeral of more than 4300 digits; no quantity cell comes near that.
- Cells.Render: whole floats of magnitude 1e16 or more, which `str` writes in exponent notation, and the float -0.0 are not modelled. A whole-float cell holds an integer below 1e16 in magnitude.
- Loader.LowerChar: lower-cases ASCII only. No other character lower-cases into a letter of "http" or "https", so `is_url` is unaffected.
- Geometry.ResizeAndPad: uses the exact ratio, where the source takes `int()` of a floating-point product. The two can differ by one pixel when the float product rounds just below a whole number.
- ImageCache.DownloadAllKeepsNewest: states first-in-first-out order only for new, distinct urls that always download. With repeated or cached urls only the size bound and the call count are stated.
- ImageCache.DownloadImage: the source returns a copy on a hit. Images here are values, so the copy is the image itself.
- Loader.LineText: states only the marker at the start of each line, not the rest of the wording.
- Loader.FailureText: does not include the exception text.
