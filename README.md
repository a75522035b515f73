# Tsunami run orchestration: naming, caching and indexing

A Dafny model of the bookkeeping layer of `tsunami_server.py`, the small web
service that runs GeoClaw tsunami simulations for a chosen earthquake template,
fault location and map extent.

The model covers the logic around the simulation:

- **Frame indexing.**
  - `list_plot_frames` scans a plot directory for `frameNNNNfig0.png` and returns the sorted frame numbers.
  - `read_frame_time` reads the time of frame `NNNN` from the first token of `fort.tNNNN`.
- **The topography cache of `fetch_topo_for_extent`.**
  - The cache tag is built from the extent in `%.3f`, the dataset key and the coarsening factor.
  - Every `-` in the tag becomes `m` and every `.` becomes `p`.
  - The file is `topo_<tag>.tt3`.
  - If that file exists it is reused. Otherwise one fetch from the elevation source happens, followed by one write.
- **The run listing of `api_list_runs`.**
  - Entries are visited in reverse name order.
  - Non-directories, runs without `_plots` and runs with no frames are skipped.
  - Each kept run is reported with its frame count.
- **The template registry and `api_templates`.**
- **The set-up half of `run_geoclaw`.**
  - Unknown templates are rejected.
  - The run id is `<timestamp>_<template>_run`, and the run directories are created.
  - The solver overrides in `clawdata` are applied.
  - The topography is fetched with coarsening 1, then the `topofiles` and `dtopofiles` lists are set.
  - A missing `xgeoclaw` binary is reported.

Modules:

| file | module | contents |
|---|---|---|
| `wrappers.dfy` | `Wrappers` | `Option` and `Result` |
| `text.dfy` | `Text` | Python's `format(n, "04d")` and `str(n)`, string comparison, `str.replace`, `str.isspace`/`split`, and `float()` on decimal literals (`ParseNumber`) |
| `frame_index.dfy` | `FrameIndex` | `list_plot_frames` (a `method` with a loop, proved against `PlotFrames`) and `read_frame_time` |
| `topo_cache.dfy` | `TopoCache` | the tag, the path, the cache step `FetchStep`, and the class `TopoDir` whose `FetchTopoForExtent` updates the file set and the fetch and write counters |
| `run_registry.dfy` | `RunRegistry` | `sorted(..., reverse=True)` on entries, and `api_list_runs` (a `method` with a loop, proved against `RunsListing`) |
| `templates.dfy` | `Templates` | `TSUNAMI_REGISTRY` as an insertion-ordered dictionary, and `api_templates` |
| `run_setup.dfy` | `RunSetup` | timestamps and run ids, run paths, subfault defaults, the `clawdata` object (class `ClawData`), and `run_geoclaw` as a method over a workspace, the run data and the run's topography directory |

How inputs are represented:

- **Map bounds** are integers in thousandths of a degree. `%.3f` then prints them exactly: `FormatMilli` writes the integer part, a point, and three zero-padded decimals.
- **File systems** are values:
  - A directory is `Missing`, `NotADirectory` or a `Listing` of names in `iterdir()` order.
  - An output directory is a map from file name to contents.
  - The runs directory is a sequence of entries.
- **Things the program reads from its surroundings** are parameters:
  - the formatted timestamp;
  - whether the elevation source answers;
  - whether the `xgeoclaw` binary exists.

Python behaviours the model keeps:

- **`re.match(r"frame(\d{4})fig0\.png$", name)`.** Python's `$` also matches just before a final newline. So `"frame0001fig0.png\n"` is accepted as frame 1.
  - Because of this, `list_plot_frames` promises only ascending order.
  - Frames are strictly ascending once no name ends in a newline (`PlotFramesStrictlyAscending`).
- **`readline()` in text mode** ends the first line at `\n` or `\r` (universal newlines).
- **`strip()` and `split()`** use Python's full set of whitespace characters.
- **`float()`** is modelled on decimal literals: an optional sign, digits with an optional point, and an optional exponent. The model gives the exact rational value the literal denotes, where Python rounds to the nearest double. `read_frame_time` therefore returns the number written in the first token of the first line. It returns `None` when:
  - the file is missing or unreadable;
  - the first line is blank, even if later lines hold numbers;
  - the token is not a number.
- **`sorted()` on paths** of one directory compares names as strings, code point by code point (`LexLess`).

Where the code differs from its intended design, the model follows the code:

- **The topography "cache" is per run.** `run_geoclaw` passes `run_dir / "topo"` as the cache directory. Each run's directory is named after its run id, so a tile fetched for one run is reused only by a run with the same id. That happens when the same template is started twice at the same local clock reading, as described below. `FetchTopoForExtent` models the cache on whatever directory it is given. `RunGeoclaw` applies it to the run's own directory.
- **Coarsening is ignored.** The coarsening factor is always 1 in `run_geoclaw`, and the template's `coarsen` field is never read (`CoarsenIgnored`).
- **Run ids can collide.** Two runs of one template started at the same local clock reading, to the second, get the same id. `mkdir(exist_ok=True)` then reuses the directory. Nothing guards against this. `RunIdInjective` shows that distinct (timestamp, template) pairs of the same width always give distinct ids.
- **The timestamp is local time.** `time.strftime` formats the local clock, not UTC. The model takes the formatted string as a parameter, and its ordering lemmas are about clock readings, not real time. When the clock is set back (a daylight-saving fall-back, or a manual reset):
  - a run that starts later can get a smaller id, and the listing then shows it below older runs;
  - two runs of one template up to an hour apart can read the same second, get the same id, and share a run directory and its topography cache.
- **Template values are not checked.** Grid sizes and fault dimensions pass through as given (`DtopoSettings`).

Two observations about the tag:

- **Distinct dataset keys can share a tag.** The substitution maps `.` to `p`, so the keys `etopo.1` and `etopop1` give the same tag for any extent (`DatasetKeyCollision`).
- **Equal tags mean the same bounds.** For one dataset key and coarsening, `TagInjective` proves that equal tags come from the same four bounds. The registry only uses `etopo1`, so the collision cannot occur in the shipped templates.

## Model

| member | source | states |
|---|---|---|
| Templates.RegistryListing | tsunami_server.py:24-112 | the registry has four distinct keys, and `api_templates` lists them in insertion order with their display names |
| Templates.RegistryTemplates | tsunami_server.py:24-112 | every template asks for two hours on `etopo1` with a 200 by 200 deformation grid |
| Templates.Lookup | tsunami_server.py:228-230 | a template is found exactly when its id is a registry key, and what is found is an entry stored under that id |
| Templates.LookupAt | tsunami_server.py:228-230 | with distinct keys, looking up a key returns the template stored under it |
| Templates.ApiTemplates | tsunami_server.py:331-338 | one listing element per registry entry, in registry order, with the entry's key as id |
| Templates.ApiTemplatesAt | tsunami_server.py:333-337 | element i is the key of entry i with the template's name, or the key when the name is absent |
| Templates.ApiTemplatesMatchLookup | tsunami_server.py:331-338 | every listed id is accepted by the run lookup, and its listed name is that template's name defaulting to the id |
| Templates.ListedIffKnown | tsunami_server.py:331-338 | an id is accepted by `run_geoclaw` exactly when `api_templates` lists it |
| Text.PadRoundTrip | tsunami_server.py:133 | `format(n, "04d")` of n below 10000 is four digits whose value is n |
| Text.FormatInt | tsunami_server.py:133 | `format(n, "0wd")`: a minus sign for negative n, then zero-padded digits; `PadRoundTrip` states that for 0 <= n < 10000 and width 4 it is four digits reading back as n |
| Text.IntToString | tsunami_server.py:156 | `str(coarsen)` in the `_c{coarsen}` field: the decimal digits of the number, after a minus sign when it is negative; `DecimalRoundTrip` states that the digits read back as the number |
| Text.DecimalRoundTrip | tsunami_server.py:156 | `str(n)` is a non-empty digit string whose value is n |
| Text.FixedLexOrder | tsunami_server.py:233 | zero-padded fields of equal width compare as strings exactly as their values compare |
| Text.LexLess | tsunami_server.py:349 | Python's string `<`, character by character, with a proper prefix first; `LexIrreflexive`, `LexAsymmetric`, `LexTotal` and `LexTransitive` make it a strict total order |
| Text.LexTotal | tsunami_server.py:349 | string order is total, so `sorted()` on names is determined |
| Text.LexTransitive | tsunami_server.py:349 | string order is transitive |
| Text.ReplaceConcat | tsunami_server.py:157 | `str.replace` of one character distributes over concatenation |
| Text.Replace | tsunami_server.py:157 | `str.replace` of one character by another: the length is kept, every occurrence of `from` becomes `to`, and every other character stays |
| Text.ParseNumber | tsunami_server.py:140 | `float()` on a token: a number starts with a sign, a point or a digit, and anything else is the ValueError (None); the lemmas below give its value for every literal form it accepts |
| Text.ParseIntegerNumber | tsunami_server.py:140 | `float()` of a run of digits is the integer they denote |
| Text.ParsePointNumber | tsunami_server.py:140 | `float()` of digits, a point and digits is their decimal value, with either side of the point allowed to be empty (`1.`, `.5`) |
| Text.ParseIntegerExponent | tsunami_server.py:140 | `float()` of digits, `e` or `E`, an optional exponent sign and exponent digits is the integer times ten to the signed exponent |
| Text.ParsePointExponent | tsunami_server.py:140 | `float()` of a point literal, `e` or `E`, an optional exponent sign and exponent digits is its decimal value times ten to the signed exponent |
| Text.ScaleUp | tsunami_server.py:140 | a positive exponent k multiplies by 10^k |
| Text.ScaleDown | tsunami_server.py:140 | a negative exponent -k divides by 10^k |
| Text.ParseNegated | tsunami_server.py:140 | `float()` of a minus sign before an unsigned literal is the negated value of that literal, and a minus sign before a non-number is not a number |
| Text.ParsePlus | tsunami_server.py:140 | a plus sign before an unsigned literal leaves its value |
| Text.ParseIntegerExamples | tsunami_server.py:140 | `12` reads as 12.0 and `+7` as 7.0 |
| Text.ParseLeadingPointExamples | tsunami_server.py:140 | `.5` reads as 0.5 and `-.5` as -0.5 |
| Text.ParseIntegerExponentExample | tsunami_server.py:140 | `1e3` reads as 1000.0 |
| Text.ParsePointExponentExample | tsunami_server.py:140 | `0.12E+04`, the usual shape of a time record, reads as 1200.0 |
| Text.FirstToken | tsunami_server.py:139-140 | `line.strip().split()[0]`: None (the IndexError) exactly when the line is blank, otherwise a non-empty token without whitespace; `FirstTokenOf` states that it is the token after the leading blanks, up to the next blank |
| Text.FirstTokenOf | tsunami_server.py:139-140 | for leading blanks, a token and anything that starts with a blank, the first token is exactly that token |
| FrameIndex.MatchFrameName | tsunami_server.py:123-125 | a matched frame number lies in 0..9999 |
| FrameIndex.FrameName | tsunami_server.py:123 | the plot file name `frame` + four digits + `fig0.png` of frame n; `MatchFrameNameIff` states that exactly these names match |
| FrameIndex.MatchFrameNameIff | tsunami_server.py:123-125 | a name gives frame n exactly when n is in 0..9999 and the name is `frame` + n padded to four digits + `fig0.png`, possibly followed by one newline (Python's `$`) |
| FrameIndex.MatchedFrames | tsunami_server.py:122-125 | the loop collects at most one number per name, each in 0..9999 |
| FrameIndex.MatchedFramesMembers | tsunami_server.py:122-125 | a number is collected exactly when some name in the directory matches with that number |
| FrameIndex.MatchedFramesEmpty | tsunami_server.py:122-125 | nothing is collected exactly when no name matches |
| FrameIndex.MatchedFramesUnique | tsunami_server.py:122-125 | distinct names without a final newline give each frame number at most once |
| FrameIndex.Insert | tsunami_server.py:126 | inserting into an ascending list keeps it ascending and adds exactly the element |
| FrameIndex.SortAscending | tsunami_server.py:126 | `sorted()` returns an ascending permutation of its input |
| FrameIndex.AscendingUniqueIsStrict | tsunami_server.py:126 | an ascending list without repeats is strictly ascending |
| FrameIndex.PlotFrames | tsunami_server.py:116-126 | a missing directory gives the empty list; iterating a file fails; otherwise the result is ascending with numbers in 0..9999 |
| FrameIndex.ListPlotFrames | tsunami_server.py:116-126 | the loop's result is `PlotFrames`: for a listing, an ascending permutation of the numbers of the matching names |
| FrameIndex.PlotFramesStrictlyAscending | tsunami_server.py:116-126 | for a directory whose names are distinct and do not end in a newline, the frames come out strictly ascending |
| FrameIndex.PlotFramesExample | tsunami_server.py:116-126 | `frame0001fig0.png`, `frame0002fig0.png` and `notaframe.png` give `[1, 2]` |
| FrameIndex.MatchFrameNameExamples | tsunami_server.py:123-125 | the two plot names match as frames 1 and 2, and `notaframe.png` does not match |
| FrameIndex.ReadFrameTime | tsunami_server.py:129-142 | a time is returned only when `fort.tNNNN` exists and is readable |
| FrameIndex.TimeFileName | tsunami_server.py:133 | `fort.t` followed by the frame number formatted with `04d`; `TimeFileMatchesPlot` ties it to the plot name of the same frame |
| FrameIndex.FirstLine | tsunami_server.py:138-139 | `readline()` without its line break: a prefix of the text with no `\n` or `\r`, ending at the first break or at the end of the text |
| FrameIndex.TimeFileMatchesPlot | tsunami_server.py:123-133 | the time file of a matched frame carries the same four digits as its plot name, and they read back as the frame number |
| FrameIndex.ReadFirstTokenOnly | tsunami_server.py:137-140 | after leading blanks, the result is `float()` of the first token alone; the rest of the line and later lines do not matter |
| FrameIndex.ReadBlankFirstLine | tsunami_server.py:139-142 | an empty or all-whitespace first line gives None, whatever follows it |
| FrameIndex.ReadBlankExamples | tsunami_server.py:139-142 | an empty file, a file of blanks with no line break, and a blank line before `12.5` all give None |
| FrameIndex.ReadFrameTimeExample | tsunami_server.py:129-142 | `"12.5 extra_tokens"` reads as 12.5, and a missing file gives None |
| FrameIndex.TimeFileNameExample | tsunami_server.py:133 | frames 3 and 12 read `fort.t0003` and `fort.t0012` |
| TopoCache.MagnitudeRoundTrip | tsunami_server.py:156 | `float()` of a non-negative bound printed with `%.3f` gives back the bound |
| TopoCache.NegativeRoundTrip | tsunami_server.py:156 | `float()` of a negative bound printed with `%.3f` gives back the bound |
| TopoCache.FormatMilliInjective | tsunami_server.py:156 | distinct bounds (in thousandths) print differently with `%.3f` |
| TopoCache.FormatMilliChars | tsunami_server.py:156 | a printed bound holds only digits, minus signs and points |
| TopoCache.FormatMilli | tsunami_server.py:156 | `%.3f` of a bound given in thousandths; `MagnitudeRoundTrip`, `NegativeRoundTrip` and `FormatMilliInjective` state that it reads back as the bound and that distinct bounds print differently |
| TopoCache.Sanitize | tsunami_server.py:157 | after the two replacements the tag holds no `-` and no `.`, and has the same length |
| TopoCache.RawTag | tsunami_server.py:156 | the tag before the replacements: four `%.3f` bounds, the dataset key and `c` with the coarsening, joined by `_`; `TagInjective` states what it determines |
| TopoCache.TopoFileName | tsunami_server.py:158 | `f"topo_{tag}.tt3"`, the file name `TopoPath` places in the cache directory; with `TagInjective`, distinct bounds give distinct names |
| TopoCache.SanitizeInjective | tsunami_server.py:157 | printed numbers (digits, `-` and `.` only) that differ still differ after the replacements |
| TopoCache.Tag | tsunami_server.py:155-157 | the tag contains no `-` and no `.` |
| TopoCache.TagInjective | tsunami_server.py:155-157 | for one dataset key and coarsening, equal tags come from equal extents in thousandths, so extents that differ in thousandths never share a cache file; extents that differ by less than 0.001 print alike and do share one (see "## Left out") |
| TopoCache.TagSeesSanitizedKey | tsunami_server.py:156-157 | the tag depends on the dataset key only through the key with `-` and `.` replaced |
| TopoCache.DatasetKeyCollision | tsunami_server.py:156-157 | the different keys `etopo.1` and `etopop1` give the same tag for every extent |
| TopoCache.TopoPath | tsunami_server.py:157-158 | `topo_dir / f"topo_{tag}.tt3"` for the extent, dataset key and coarsening; `TagInjective` makes distinct bounds give distinct paths |
| TopoCache.CacheStep | tsunami_server.py:159-169 | one call on a known file name: an existing file is returned untouched; otherwise one fetch, then a failure, or a write of the file and its path; `CacheHit`, `CacheMiss` and `SecondCallHits` state its cases |
| TopoCache.FetchStep | tsunami_server.py:146-169 | one call of `fetch_topo_for_extent`: `CacheStep` on the file name and path the tag gives |
| TopoCache.CacheHit | tsunami_server.py:158-160 | when the file exists, the path is returned and nothing is fetched or written |
| TopoCache.CacheMiss | tsunami_server.py:158-169 | on a miss there is exactly one fetch; if the source answers there is one write, the file exists and its path is returned; otherwise the call fails with nothing written |
| TopoCache.SecondCallHits | tsunami_server.py:158-169 | after a successful call, the same call returns the same path with no further fetch |
| TopoCache.RepeatedFetchesOnce | tsunami_server.py:158-169 | when the source answers every call, any number of identical calls fetch and write at most once, and after at least one call the file exists |
| TopoCache.HitsStay | tsunami_server.py:159-160 | once the file exists, repeated calls change nothing |
| TopoCache.TopoDir.FetchTopoForExtent | tsunami_server.py:146-169 | the new file set and counters and the result are one `FetchStep` from the old state |
| RunRegistry.InsertByName | tsunami_server.py:349 | inserting into a name-descending list keeps it descending and adds exactly the entry |
| RunRegistry.SortByNameDesc | tsunami_server.py:349 | `sorted(..., reverse=True)` returns a name-descending permutation of the entries |
| RunRegistry.SortedStrictly | tsunami_server.py:349 | with distinct names, the sorted names are strictly descending |
| RunRegistry.Summary | tsunami_server.py:361-367 | a reported run has at least one frame and empty `meta` |
| RunRegistry.Visit | tsunami_server.py:350-367 | one entry of the loop: files and entries without `_plots` or frames are skipped, a failing `list_plot_frames` fails, and others give their summary; `VisitMeaning` states the cases |
| RunRegistry.KeptRuns | tsunami_server.py:349-367 | the summaries of the loop over the sorted entries, in order, or the first failure; `KeptRunsMeaning` states what it holds |
| RunRegistry.VisitMeaning | tsunami_server.py:350-367 | an entry fails the listing exactly when its `_plots` is a file, is skipped exactly when it is neither shown nor broken, and is reported with its frame count when shown |
| RunRegistry.KeptRunsMeaning | tsunami_server.py:349-367 | the loop fails if some entry is broken, and otherwise yields the summaries of exactly the shown entries in visiting order |
| RunRegistry.FailurePersists | tsunami_server.py:357 | once `list_plot_frames` has raised, later entries do not change the outcome |
| RunRegistry.ShownSummariesMembers | tsunami_server.py:349-367 | a summary is listed exactly when it is the summary of a shown entry |
| RunRegistry.ShownSummariesDescending | tsunami_server.py:349-367 | skipping entries of a strictly name-descending sequence keeps the run ids strictly descending |
| RunRegistry.SameBroken | tsunami_server.py:349 | reordering the entries keeps which entries are broken |
| RunRegistry.SameShown | tsunami_server.py:349 | reordering the entries keeps the summaries of the shown entries |
| RunRegistry.ListRuns | tsunami_server.py:343-369 | the loop returns `RunsListing` of the runs directory |
| RunRegistry.RunsListing | tsunami_server.py:343-369 | `api_list_runs` as a function of the runs directory; `RunsListingMeaning` and `RunsListingDescending` state its result |
| RunRegistry.RunsListingMeaning | tsunami_server.py:343-369 | a missing runs directory gives `[]`; the listing fails exactly when some run's `_plots` is a file; otherwise it holds exactly the summaries of directories with a `_plots` directory holding a matching frame, each with at least one frame and empty `meta` |
| RunRegistry.RunsListingDescending | tsunami_server.py:343-369 | in a directory (distinct names), run ids are listed strictly descending |
| RunSetup.FormatStamp | tsunami_server.py:233 | `%Y%m%d_%H%M%S` is 15 characters long |
| RunSetup.FormatStampOrder | tsunami_server.py:233 | formatted timestamps compare as strings exactly as the clock readings compare in time |
| RunSetup.RunId | tsunami_server.py:234 | `f"{timestamp}_{template}_run"`; `RunIdInjective`, `RunIdOrder` and `RunIdChronological` state what it determines and how it orders runs |
| RunSetup.RunIdInjective | tsunami_server.py:234 | with timestamps of one width, the run id determines both the timestamp and the template |
| RunSetup.RunIdOrder | tsunami_server.py:233-234 | for one template, a later local clock reading gives a larger id, and only then: the reverse-sorted listing shows the run with the later reading first |
| RunSetup.RunIdChronological | tsunami_server.py:233-234 | whatever the templates, an earlier local clock reading (to the second) gives a smaller id |
| RunSetup.DtopoSettings | tsunami_server.py:183-209 | every subfault field, `times`, `dtopo_nx` and `dtopo_ny` given by the template is used unchanged, with no validation; each missing one takes its default (0, 10, 90, 1, 100e3, 50e3, 10e3, "top center", `[0.0, 1.0]`, 240, 240); the fault sits at the clicked point |
| RunSetup.GridsAgree | tsunami_server.py:183-265 | the solver grid and the deformation grid have the same size, wherever the fault is placed |
| RunSetup.RunDir | tsunami_server.py:235 | `RUNS_DIR / run_id`; `RunGeoclaw` states that this directory exists after a run with a known template |
| RunSetup.OutDir | tsunami_server.py:236 | `run_dir / "_output"`; `RunGeoclaw` returns it with the run id |
| RunSetup.PlotDir | tsunami_server.py:237 | `run_dir / "_plots"`, the directory `api_list_runs` later scans |
| RunSetup.TopoDirPath | tsunami_server.py:238 | `run_dir / "topo"`, the cache directory of the run's topography fetch |
| RunSetup.DtopoPath | tsunami_server.py:212 | `out_dir / "dtopo_user_fault.tt3"` with `out_dir=run_dir`; `RunGeoclaw` records it as the single deformation file |
| RunSetup.RunLayout | tsunami_server.py:212-238 | the output, plot and topography directories and the deformation file of one run are four different paths, each directly inside the run directory |
| RunSetup.RunTopoPath | tsunami_server.py:271 | the topography file of a run: `TopoPath` in the run's `topo` directory with the template's `map_key` and coarsening 1; `CoarsenIgnored` and `RunGeoclaw` state its use |
| RunSetup.ConfigFor | tsunami_server.py:254-268 | lower = (west, south), upper = (east, north), 6 output times, cells = `dtopo_nx`, `dtopo_ny`, tfinal = hours × 3600 |
| RunSetup.CellsDefault | tsunami_server.py:262-265 | without `dtopo_nx` and `dtopo_ny` the grid is 240 by 240 |
| RunSetup.ClawData.Configure | tsunami_server.py:251-268 | the overridden `clawdata` fields become `ConfigFor(template, extent)` |
| RunSetup.CoarsenIgnored | tsunami_server.py:271 | the template's `coarsen` does not affect the topography file of a run |
| RunSetup.RunGeoclaw | tsunami_server.py:217-289 | an unknown template fails before any directory is created or any field is changed; otherwise the four run directories exist, `clawdata` is `ConfigFor`, the run's topography directory takes one `FetchStep` at coarsening 1, the topo and dtopo lists are the single pair `[3, path]`, and the result is the run id and output directory, or the missing-binary error |
| RunSetup.ChileRun | tsunami_server.py:254-271 | the Chile run uses 200 by 200 cells, 7200 s, and the etopo1 tile at coarsening 1 under its own `topo` directory, although its template says coarsening 2 |
| RunSetup.UnknownTemplateRejected | tsunami_server.py:228-229 | an id outside the registry is not found |

## Left out

- HTTP routes, JSON encoding and file serving (`index`, `simulate`, `serve_plot`, `api_run_summary` and the `jsonify` wrappers). The model covers the values these routes compute from, not the HTTP layer.
- Directory creation, `os.chdir` and its restoration, and `rundata.write()` are file-system and process state. Creating directories is modelled as adding paths to a set.
- `runclaw.runclaw` and `plotclaw.plotclaw`, the external simulation engine and plot renderer: `RunGeoclaw` ends where the engine would start.
- `topotools.read_netcdf` and `topo.write`: the fetch is an event counted by `TopoDir`, and whether the source answers is a parameter. `CacheStep` writes the file in one step that cannot fail once the fetch has answered. In the source, `topo.write` can fail part-way and leave a partial `topo_<tag>.tt3`, which every later call with the same tag would return as a cache hit. The model does not capture that.
- The Okada deformation in `make_dtopo_single_fault`: `np.linspace`, `fault.Mw()` and `create_dtopography` are foreign floating-point numerics. Only its parameter defaults and the path it writes are modelled.
- Floating-point values. Bounds are exact thousandths of a degree, so the rounding of arbitrary floats by `%.3f` and the `-0.000` printed for tiny negative bounds are not modelled. In the source, extents that differ by less than 0.001 in every bound print the same tag and so share one topography file. Template numbers are exact reals, and `tfinal_hours` is written `2.0` where the source writes the integer 2.
- `import_module("setrun").setrun` is code outside this model. Its `clawdata` is a parameter with two space dimensions.
- `time.strftime` and the clock: the formatted timestamp is a parameter.
- Concurrent requests racing on one cache file or one run directory. The code does not coordinate them.
- FrameIndex.MatchFrameName: `\d` is modelled as the ASCII digits, although Python's `re` on `str` also accepts other Unicode decimal digits.
- FrameIndex.ReadFrameTime: `float()` is modelled on decimal literals only. `inf`, `nan`, digits grouped with underscores and non-ASCII Unicode decimal digits (Python's `float("١٢")` is 12.0) are treated as not numbers. Values are kept exact: a literal beyond the double range such as `1e400` keeps its value where Python gives `inf`, `1e-400` stays non-zero where Python gives `0.0`, and other values are not rounded to doubles.
- RunSetup.FormatStamp: only four-digit years are modelled (`%Y` pads differently outside 1000-9999).
- RunSetup.RunGeoclaw: the deformation file is not created, so only its path is recorded. Errors from `setrun` or the deformation code are not modelled.
- RunRegistry.ListRuns: a run entry is a plain file or a directory whose `_plots` is missing, a file, or a listing. Symbolic links and permission errors are not modelled.
