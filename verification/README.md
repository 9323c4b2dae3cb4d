# rembg_test core, modelled in Dafny

This project models the sequential logic of a small background-removal demo
built on rembg. It has three parts:

- **Quadrant tiling.** `split_image` cuts a `w×h` image into four tiles at the
  floor midpoints `w//2` and `h//2`. `merge_images` pastes four tiles back onto a
  fresh canvas of `2·maxW × 2·maxH`. `remove_async` runs background removal on
  the four tiles through an order-preserving pool map and merges the results.
  Modules: `Tiling` (tiling.dfy) and `Pipeline` (pipeline.dfy).
- **Batch naming.** `batch_test` processes the listed entries of a source
  directory in listing order. It writes each result as `<stem>.png` under a
  timestamped destination directory. A run is modelled as the log of its
  saves, one per processed entry; two entries with the same stem (`a.jpg` and
  `a.png`) save to the same `a.png`, and the later one overwrites the earlier
  file. `get_filename_without_ext` is
  `os.path.basename` followed by `os.path.splitext`. Modules: `Naming`
  (naming.dfy) and `Batch` (batch.dfy).
- **Request handling.** `parse_float` and `parse_shifts` parse text
  all-or-nothing. `remove_bg` replaces empty fields with defaults.
  `hook_ichol` binds a threshold and a shift list into the preconditioner.
  `session_cache` loads a session on first use and never evicts it.
  `remove_bg` runs its steps in a fixed order: the missing-image check, then
  the session lookup, then parsing, then the removal call. Modules:
  `Preconditioner` (preconditioner.dfy), `Params` (params.dfy) and `Sessions`
  (sessions.dfy).

`Common` (common.dfy) holds `Option`, `Result` and `MapAll`. `MapAll` is the
order-preserving map that stops at the first failure. It serves both the list
comprehension in `parse_shifts` and `Pool.starmap`.

Every external collaborator is a function parameter:

- Python's `float()` is `parse: string -> Option<real>`.
- `new_session` is `load: string -> Result<S, string>`, so a loader that
  raises (a failed model download, say) is part of the model.
- rembg's `remove` is `remove`/`process`.

pymatting's `ichol` does not appear. It is one fixed external function, so two
`hook_ichol` closures with equal captured values behave alike, and the
closure is modelled by the threshold and shift list it captures (`IcholConfig`).

Images are `Image<P>` values with explicit width, height and rows of an
abstract pixel type `P`. `fill` is the colour `Image.new` starts a canvas with.
The session cache is a `map<string, S>` value passed from call to call.

Three facts about the code shape the model:

- The merge offsets are the **largest** tile width and height over the given
  images (tests/newtest.py:28-36).
- A request without an image is rejected with the message `请上传图片`
  (app.py:73-74).
- A failing file aborts the rest of a batch run, since nothing in the loop
  catches the error (tests/newtest.py:95-103). The files written before it
  stay written.

For an odd width or height the code's behaviour is kept and proved:

- The merged canvas is one pixel larger along that side.
- The middle column (row) is never painted.
- Source pixels past it appear shifted by one.

## Model

| member | source | states |
|---|---|---|
| Tiling.Crop | tests/newtest.py:19-22 | a crop has its box's size, and tile pixel (x, y) is source pixel (left + x, upper + y) |
| Tiling.SplitBoxesPartition | tests/newtest.py:19-22 | the four crop boxes lie inside the image; each pixel lies in exactly one box, the one its quadrant names (pairwise disjoint and covering) |
| Tiling.Split | tests/newtest.py:13-24 | four tiles in order TL, TR, BL, BR with sizes (w//2, h//2), (w−w//2, h//2), (w//2, h−h//2), (w−w//2, h−h//2); each is the crop of its quadrant box |
| Tiling.SplitPixel | tests/newtest.py:19-22 | every source pixel (x, y) appears in the tile of its quadrant at (x − left, y − upper) |
| Tiling.MaxOf | tests/newtest.py:28-29 | the maximum is at least every size and equals one of them (0 for none) |
| Tiling.MergeCanvas | tests/newtest.py:26-36 | the canvas is 2·(largest tile width) × 2·(largest tile height) and well formed |
| Tiling.MergeImages | tests/newtest.py:26-36 | a merge exists exactly when at least four images are given, and it is then the merge canvas of those images, well formed |
| Tiling.MergePixel | tests/newtest.py:32-36 | tiles 0..3 land at (0,0), (W,0), (0,H), (W,H) with W, H the largest tile dimensions, without overlap; each canvas point shows its quadrant tile's pixel or the fill |
| Tiling.SplitMaxDimensions | tests/newtest.py:16-29 | the largest split tile is ⌈w/2⌉ wide and ⌈h/2⌉ tall |
| Tiling.SplitMergeSize | tests/newtest.py:13-36 | merge(split(img)) is 2·⌈w/2⌉ × 2·⌈h/2⌉, which equals w × h exactly when both are even |
| Tiling.SplitMergePixel | tests/newtest.py:13-36 | merge(split(img)) shows the fill on an odd side's middle seam and elsewhere the source pixel, shifted by one past the seam |
| Tiling.SplitMergeRoundTrip | tests/newtest.py:13-36 | for even w and h, merge(split(img)) equals img pixel for pixel |
| Tiling.MergeCanvasMerges | tests/newtest.py:26-36 | every point of the merge canvas shows its quadrant tile's pixel or the fill |
| Tiling.MergedSplitPixel | tests/newtest.py:13-36 | any merge of any split has size 2·⌈w/2⌉ × 2·⌈h/2⌉ and shows the fill on a seam and the source pixel at the shifted coordinate elsewhere |
| Tiling.MergedSplitRoundTrip | tests/newtest.py:13-36 | any merge of any split of an even-sized image is that image |
| Tiling.MergedSplitSeams | tests/newtest.py:28-36 | any merge of any split keeps the fill on the middle column of an odd width and the middle row of an odd height |
| Tiling.OddSeamUnpainted | tests/newtest.py:28-36 | for odd w, canvas column w//2 keeps the fill in every row; for odd h, row h//2 keeps it in every column |
| Common.MapAll | tests/newtest.py:57-58 | result i is f of input i for all i (same length, same order), or the whole map fails with a failing element's error and no partial list |
| Pipeline.RemoveAsync | tests/newtest.py:53-59 | succeeds exactly when all four tile removals succeed, and is then the merge of the results in tile order; otherwise fails with one tile's error |
| Pipeline.SplitMapPixels | tests/newtest.py:13-24 | splitting commutes with a per-pixel transform |
| Pipeline.TiledMatchesDirect | tests/newtest.py:53-69 | for even dimensions and a per-pixel remover, the tiled pipeline gives exactly the whole-image result |
| Naming.LastIndex | tests/newtest.py:86 | the last occurrence of a character, or none exactly when it is absent |
| Naming.Basename | tests/newtest.py:86 | the base name is the separator-free suffix that follows the last `/` |
| Naming.Join | tests/newtest.py:83 | an absolute name replaces the directory; an empty directory gives the name itself; a directory ending in `/` is followed directly by the name, any other by one `/` and the name; so the path always ends with the name |
| Naming.JoinEndsWithName | tests/newtest.py:83 | a joined path ends with the name, preceded by the directory or the directory plus one `/`, and after a non-empty directory the name follows a `/` |
| Naming.SplitExt | tests/newtest.py:86 | root + ext is the path; the extension is empty or one dot followed by no dot or `/` |
| Naming.SplitExtOfName | tests/newtest.py:86 | a plain name has an extension exactly when it has a last dot preceded by some non-dot character; the root is then not all dots |
| Naming.Stem | tests/newtest.py:85-86 | the stem is separator-free and, followed by the extension, gives the base name |
| Naming.BasenameOfJoin | tests/newtest.py:82-86 | the base name of dir joined with a plain name is that name |
| Naming.StemOfEntry | tests/newtest.py:82-86 | the stem of a listed entry's joined path is the entry's own root |
| Batch.ImagesInDir | tests/newtest.py:82-83 | path i is the source directory joined with entry i, one per entry in listing order, and its base name is the entry |
| Batch.BatchTest | tests/newtest.py:88-103 | saved output i is `<stem of entry i>.png` under the destination with entry i's result; all entries are saved exactly when no failure occurs; on failure exactly the entries before the failing one are saved |
| Batch.SameRootSameOutput | tests/newtest.py:100-101 | two entries with the same root are written to the same output path, so the later save overwrites the earlier |
| Batch.OutputNamesFollowEntries | tests/newtest.py:100-101 | output i is named entry i's root plus `.png`, directly under the destination |
| Preconditioner.HookIchol | app.py:19-29 | the preconditioner holds exactly the threshold and shifts it was given |
| Preconditioner.DefaultIchol | app.py:19-22 | defaults: threshold 1e-4 and twelve strictly ascending shifts from 0 to 1e5 |
| Params.ParseFloat | app.py:31-35 | the parsed number when float() accepts the text; otherwise an error whose message starts with the field title |
| Params.SplitOn | app.py:39 | `str.split`: one more piece than separators, each piece separator-free |
| Params.JoinSplit | app.py:39 | joining the split pieces with the separator gives the text back |
| Params.SplitJoin | app.py:39 | splitting a join of separator-free pieces gives exactly those pieces |
| Params.ParseShifts | app.py:37-41 | succeeds exactly when every comma-separated piece parses; then one value per piece in order (commas + 1 values); otherwise the single Shifts error |
| Params.ShiftsRoundTrip | app.py:37-41 | comma-joined number texts parse back to their numbers in order |
| Params.ResolveNumber | app.py:81-82 | empty text gives the default; non-empty text succeeds exactly when float() accepts it, with that value, and errors name the field |
| Params.ResolveShifts | app.py:83 | empty text gives the twelve default shifts; non-empty text always goes through parse_shifts |
| Params.ResolveSettings | app.py:81-83 | succeeds exactly when threshold, epsilon and shifts all resolve; otherwise the first failure in source order is raised |
| Params.EmptyFieldsUseDefaults | app.py:81-83 | all fields empty resolve to threshold 1e-4, epsilon 1e-7 and `remove_bg`'s own default shift list, which equals the one `hook_ichol` declares |
| Sessions.GetOrLoad | app.py:76-78 | a cached model returns its session with the cache unchanged and no load; otherwise the lookup succeeds exactly when the loader does, adding exactly that key and keeping every other entry, and a raising loader stores nothing and propagates its error |
| Sessions.RemoveBg | app.py:73-98 | a missing image fails with 请上传图片 and an untouched cache; otherwise the session is acquired first, and a raising loader ends the request with its error and the cache unchanged; then a parse error is raised or the remover runs with that session and a preconditioner holding the resolved values |
| Sessions.MissingImageRejectedFirst | app.py:73-76 | a missing image is rejected before the cache is read or changed, whatever the other fields hold |
| Sessions.SessionLoadedBeforeParsing | app.py:75-83 | a parse error on a cold model whose load succeeds still leaves the freshly loaded session in the cache |
| Sessions.FailedLoadStoresNothing | app.py:76-77 | when new_session raises for a cold model, the request raises that error before any parsing and the model stays uncached |
| Sessions.EmptyFormUsesDefaultPreconditioner | app.py:19-98 | with all three numeric fields empty, the remover gets epsilon 1e-7 and a preconditioner equal to hook_ichol() with its own defaults |
| Sessions.OnlyMaskIgnored | app.py:50-98 | the only_mask input has no effect on the outcome |
| Sessions.CacheNeverEvicts | app.py:76-78 | over any run of requests the cache holds its initial keys plus every model requested with an image whose load succeeds; stored sessions are never replaced, and new ones are the loader's |
| Sessions.SameModelSameSession | app.py:76-78 | the second of two requests for the same model leaves the cache as the first left it, and when the first obtained a session the second gets that session without loading |

## Left out

- The Gradio interface and `demo.launch()` (app.py:105-160) are user-interface plumbing.
- `perf_counter` timings, `perf_html` and the returned HTML summary are left out. They are wall-clock values and float formatting. `RemoveBg` returns only the removed image, not the gallery tuple.
- The parameter-logging `print` and the `cProfile` wrapper have no logical content.
- rembg's `remove` and `new_session` are external ML code and are uninterpreted function parameters. pymatting's `ichol` is external numeric code and does not appear: `hook_ichol`'s closure is modelled by the values it captures.
- The lexical rules of Python `float()` are not modelled: `parse` is any partial function. IEEE behaviour is not modelled, and numbers are `real`.
- The default shift list holds the integer `100`. It is modelled as the real `100.0`.
- `multiprocessing.Pool` concurrency is left out; only its order-preserving map is kept.
- When several tiles fail, the source does not say whose error `starmap` raises. `MapAll` reports the lowest-index failure.
- File and directory I/O is left out: `Image.open`, `save`, `os.listdir`, `os.makedirs`, `datetime.now()`, and the `new.png` save inside `merge_images`. The listing is an input sequence, and the destination directory and the opened image are parameters. `MergeCanvas` returns the canvas instead of saving it. A collision in `os.makedirs` is not modelled.
- RGBA→RGB conversion during `paste` is not modelled. Pixels are of an abstract type.
- `Tiling.Crop`: `Image.crop` with a box outside the image pads; it is not modelled. The split only ever uses boxes inside the image.
- `Tiling.MergeImages`: with fewer than four images the source raises `ValueError` or `IndexError`. The model returns `None` for both.
- `Naming.Basename`, `Naming.Join` and `Naming.SplitExt` follow POSIX path rules only (separator `/`).
- The model identifier is not checked against the list of models. The source relies on the dropdown for that, and `new_session`'s handling of unknown names is external.
- A `None` text field, which Python also treats as empty, is not modelled. Fields are strings.
- Two concurrent first requests for the same model can race on the unlocked cache dict. Concurrency is out of scope.
- `Pipeline.TiledMatchesDirect` claims equality with a whole-image call only for per-pixel removers. A matting remover looks at neighbouring pixels, so tiling can change its output.
- `Preconditioner.HookIchol`: the closure in the source captures the shift list object itself, so mutating that list after the call (or the shared mutable default of `hook_ichol`) would change what `ichol` receives. The model's shift list is an immutable sequence, so this aliasing is not modelled; `remove_bg` never mutates the list after the call.
- `Sessions.GetOrLoad`: the loader is a deterministic function of the model name, so a load that fails transiently and then succeeds on a retry is not modelled. Each attempt is still modelled as leaving the cache unchanged.
