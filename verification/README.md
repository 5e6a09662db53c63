# Rain-map plotting core, modelled in Dafny

The repository plots precipitation maps. It reads map layouts from text templates and data from ONS forecast files. Two pure cores inside it are modelled here.

**Map templates and plotting decisions** (`plotMap.py`):
- The `Mapa` record and the line-oriented `key:value` reader `loadMapTemplate`.
- The decisions `plotarMapa` takes before it calls the plotting library:
  - which template to use;
  - which overlays to draw;
  - how the colour map is extended;
  - which primitive draws the data;
  - whether a colour bar is drawn, and with which ticks;
  - whether the figure is shown or saved.

**ONS forecast files** (`functions.py`):
- The file-name checks `check_nomearquivo*`.
- The name and date extraction `dados_Mapa*`.
- The folder guard of `deleta_arquivos`.
- The pure steps of the `plotMapaONS*` drivers: de-duplication of the coordinate lists, reshaping the data into one row per latitude, and choosing the output file name.

The modules follow that split:

| module | file | contents |
|---|---|---|
| `Results` | results.dfy | `Option` and `Result` with the `:-` protocol |
| `Text` | text.dfy | Python's `str.split`, `strip`/`rstrip`, clamped slicing, `os.path.split(p)[1]` and the root of `os.path.splitext`; `split`, the strips and the path functions come with partner lemmas, and clamped slicing is characterised by its own contract |
| `Calendar` | calendar.dfy | proleptic Gregorian dates, the day before and the day after, and an ordinal reference count; `strptime(…, "%d%m%y")` and `strftime('%d/%m/%Y')` with their round trips |
| `Template` | template.dfy | `Mapa`, line classification, the reading loop, and `loadMapTemplate` |
| `Render` | render.dfy | the decisions of `plotarMapa`, collected into a `RenderPlan` |
| `OnsFiles` | ons_files.dfy | `check_nomearquivo*`, `dados_Mapa*`, and the lemmas for names built the ONS way |
| `OnsBatch` | ons_batch.dfy | the folder guard, `dict.fromkeys` de-duplication, `np.reshape`, and the output path |

Inputs that the Python code gets from the outside world are parameters here:
- A template file is `Option<seq<string>>`: `None` is a file that cannot be opened, and `Some(lines)` holds its lines.
- The file system that `plotarMapa` reads templates from is a function from path to file.
- `float(...)` is the parameter `toFloat: string -> Option<real>`, a partial parse.

### Behaviour worth knowing

- **Template keys.** The reading loop ignores which keys it sees. It counts non-blank, non-comment lines and demands exactly 11 of them; the keys themselves are checked only afterwards, when the record is built, and a missing key fails with "cannot interpret" (`Template.BuildMapa`). A repeated key still counts as a line and overwrites the earlier value. Eleven lines with a repeated key always fail (`Template.RepeatedKeyFails`).
- **Template values.** Each line is right-stripped, then split at every `:`:
  - Only whitespace at the very end of the line is removed. Whitespace before the first `:` stays in the key (`a :b` gives the key `a `), and whitespace around the value inside the line stays in the value (`k: v :w` gives the value ` v `). Leading whitespace stays in the key.
  - Only the text between the first and the second `:` becomes the value. Anything after a second `:` is dropped.
- **Colour-map extension.** The `'neither'` extension is never chosen. When both sentinel colours are `-1`, the result is `'max'`, with the sentinel `-1` itself passed as the `over` colour.
- **`dados_Mapa_diff`.** Its `try` and `except` branches evaluate the same expression, and the slice [15:21] has already been parsed successfully for the start date just before them. The `except` branch can therefore never run. The model reads the slice once.

## Model

| member | source | states |
|---|---|---|
| Template.IsSkippedMatchesStrip | plotMap.py:259-263 | a raw line is skipped exactly when the right-stripped then stripped text is empty or starts with `#` |
| Template.IsSkipped | plotMap.py:259-263 | a line is skipped exactly when, after its leading whitespace is removed, nothing is left or the first character is `#` |
| Template.ClassifyLineSpec | plotMap.py:258-271 | blank and comment lines are skipped; a counted line without `:` is malformed; otherwise the key is the text before the first `:` and the value runs up to the second `:` or the end of the right-stripped line, and neither contains `:` |
| Template.ClassifyLine | plotMap.py:259-271 | a line is skipped iff `IsSkipped` holds; it is malformed iff it is counted and its right-stripped text has no `:`; an entry's key and value contain no `:` |
| Template.Gather | plotMap.py:258-271 | the loop as a fold over classified lines: any failure is the unopenable-file error, and the count never exceeds the number of lines |
| Template.GatherLines | plotMap.py:256-271 | the reading loop, run line by line and left at the first malformed line, computes exactly the reference fold `Gather` over the classified lines |
| Template.GatherFailsIffMalformed | plotMap.py:264-275 | the loop fails iff some line is malformed, and then with the same error as an unopenable file |
| Template.SkippedDrops | plotMap.py:263 | removing a skipped line changes neither the gathered dictionary nor the line count |
| Template.GatherCount | plotMap.py:265-268 | the count equals the number of counted lines, and the dictionary never has more keys than that |
| Template.LastEntryWins | plotMap.py:268 | a key maps to the value of its last counted line |
| Template.EntryHasSourceLine | plotMap.py:266-268 | every key in the dictionary came from some counted line with that value |
| Template.RepeatedKeyShrinks | plotMap.py:266-268 | two counted lines with the same key leave fewer keys than counted lines |
| Template.ParseAll | plotMap.py:302-306 | a list of pieces converts iff every piece converts, and each number is the conversion of its piece |
| Template.BuildMapa | plotMap.py:284-310 | the record is built iff all eleven keys are present and every numeric field converts; otherwise the error is "cannot interpret" |
| Template.BuildMapaFields | plotMap.py:287-306 | the text fields hold the dictionary values; the colour codes joined with `,` give the stored text back; each numeric list has one number per comma-separated piece, and each number is the conversion of its piece; the two scalars are the conversions of their texts |
| Template.LoadMapTemplate | plotMap.py:220-312 | an open failure and a malformed line give the same error; otherwise a count other than 11 fails and reports the count; success iff the count is 11 and the dictionary is interpretable |
| Template.LoadedFromDict | plotMap.py:282-312 | a loaded template is the record built from the final dictionary |
| Template.SkippedLineIrrelevant | plotMap.py:259-263 | inserting a blank or comment line anywhere never changes the outcome |
| Template.LineCountDecidesFirst | plotMap.py:277-280 | with no malformed line, a count other than 11 fails whatever keys are present |
| Template.RepeatedKeyFails | plotMap.py:266-280 | eleven counted lines with a repeated key always fail |
| Render.ResolveTemplate | plotMap.py:104-111 | a path is loaded and its load error passed on, a `Mapa` is used unchanged, and any other argument is an error |
| Render.OverlayItems | plotMap.py:133-139 | a non-list argument becomes the one-element list holding it; a list is used as it is |
| Render.LayerOf | plotMap.py:142-148 | an item yields no layer iff it is neither a shape nor a string; a shape is reused as it is, and a string is read as a fresh shape from that path |
| Render.Layers | plotMap.py:142-148 | at most one layer per item, and exactly one per item iff no item has another type |
| Render.LayersAppend | plotMap.py:142-148 | the overlays of a concatenated list are the overlays of the parts, in order |
| Render.LayersPointwise | plotMap.py:142-148 | a prebuilt shape is reused as the same object, and a path is loaded fresh from that path |
| Render.LayerSourcesOrdered | plotMap.py:142-148 | layers are drawn in list order: of two layers, the later one comes from a later item |
| Render.LayerHasSource | plotMap.py:142-148 | the `j`-th layer drawn comes from the item that has exactly `j` drawn items before it |
| Render.DefaultDrawsNoOverlay | plotMap.py:136-148 | the default `shapeFile=-1` is wrapped into a list and then skipped, so no overlay is drawn |
| Render.ExtendPolicy | plotMap.py:150-165 | `both` iff neither sentinel is `-1`; `min` iff only the minimum colour is set; `max` otherwise; never `neither`; the under and over colours are given exactly for the extended sides |
| Render.NeitherIsUnreachable | plotMap.py:163-165 | with both sentinels at `-1`, the policy is `max`, with `-1` as the over colour |
| Render.PlotKindOf | plotMap.py:175-183 | contour iff the kind is exactly `contornos`, scatter iff exactly `xy`, and an error otherwise |
| Render.ColorBarOf | plotMap.py:186-199 | a colour bar is drawn iff the orientation is not `none`, and its ticks are the breakpoints, element by element |
| Render.OutputOf | plotMap.py:213-217 | an empty destination shows the figure, and any other destination is the file saved to |
| Render.PlanRender | plotMap.py:102-217 | template errors come first; once the template resolves, the call succeeds iff the kind is valid and otherwise fails with its own invalid-kind error; the plan holds the resolved template, the overlays, the extension policy of that template, the primitive (`contour` for `contornos`, `scatter` for `xy`), the colour bar built from that template (present iff the orientation is not `none`), and the output decision (display iff the destination is empty) |
| Render.RecordUsedUnchanged | plotMap.py:107-108 | a `Mapa` passed in is planned unchanged, whatever the file system holds |
| Render.TicksMatchBreakpoints | plotMap.py:186-199 | for a template read from a file, the colour bar has one tick per comma-separated piece of `barra_cores_valores` |
| Text.Split | plotMap.py:267 | `split(c)` yields one piece more than there are separators, and no piece contains the separator |
| Text.JoinSplit | plotMap.py:296-297 | joining the pieces of a split with the separator gives the text back |
| Text.SplitJoin | plotMap.py:296-297 | splitting the join of separator-free pieces gives the pieces back |
| Text.SplitFirstTwo | plotMap.py:267-268 | the first two pieces of a split, with the separator between them, are a prefix of the text, followed by a separator or the end |
| Text.RStrip | plotMap.py:259 | `rstrip` removes exactly the trailing whitespace |
| Text.StripEmptyIffAllSpace | plotMap.py:261-263 | a stripped line is empty iff it is all whitespace |
| Text.Slice | functions.py:53 | `s[lo:hi]` holds the characters `lo..hi` when they exist, and is shorter when the text is too short |
| Text.Basename | functions.py:50 | the basename contains no `/`, is a suffix of the path, and starts at the path's start or just after a `/` |
| Text.BasenameAfterSlash | functions.py:134 | a name without `/` is its own basename under any directory |
| Text.StripExtension | functions.py:257 | the root is a prefix of the name; when something is removed, it starts at the last `.` and the root is not all dots; otherwise every last dot has only dots before it |
| Calendar.DaysInMonth | functions.py:140 | 28 to 31 days; February has 29 iff the year is leap; the 30-day months are April, June, September and November |
| Calendar.Previous | functions.py:139-140 | `date - timedelta(1)` is a valid date strictly before the given one, at most one year earlier |
| Calendar.PreviousIsOneDayBack | functions.py:139-140 | the day before has ordinal one less than the day |
| Calendar.NothingBetweenPreviousAndDay | functions.py:139-140 | no valid date lies strictly between a day and the day before it |
| Calendar.NextOfPrevious | functions.py:139-140 | the day after the day before is the day itself |
| Calendar.ParseDdmmyy | functions.py:52-53 | a `%d%m%y` text reads as a date iff it is six digits naming an existing day, with `%y` 00-68 read as 20xx and 69-99 as 19xx |
| Calendar.DdmmyyRoundTrip | functions.py:52-55 | every date of 1969-2068 is read back from its six-digit text |
| Calendar.ParseDdmmyyInverse | functions.py:52-55 | a text that reads as a date is exactly that date's six-digit text |
| Calendar.FormatDmyRoundTrip | functions.py:137-142 | a date written as `dd/mm/YYYY` reads back as the same date |
| Calendar.FormatDmy | functions.py:137-138 | `strftime('%d/%m/%Y')` gives ten characters: two digits, `/`, two digits, `/`, four digits; `FormatDmyRoundTrip` reads them back as the same date |
| OnsFiles.MapName | functions.py:136 | the map name is the basename up to its first `_` (or the whole basename when there is none): a prefix with no `_`, followed by `_` or the end |
| OnsFiles.DateField | functions.py:53 | the second `_`-segment exists iff the basename contains `_`; it is the text after the map name and its `_`, contains no `_`, and is followed by `_` or the end |
| OnsFiles.DateAt | functions.py:52-55 | `strptime(field[lo:lo+6], '%d%m%y')` succeeds iff the field has the six characters and they parse; a shorter, clamped slice never parses |
| OnsFiles.CheckNomeArquivo | functions.py:42-60 | a name is accepted iff its basename has a second `_`-segment of at least 14 characters whose slices [1:7] and [8:14] parse as `%d%m%y` dates; those slices are then all digits |
| OnsFiles.CheckNomeArquivoAcc | functions.py:63-83 | a name is accepted iff its second `_`-segment has at least 21 characters and its slices [1:7], [8:14] and [15:21] parse as `%d%m%y` dates |
| OnsFiles.CheckNomeArquivoDiff | functions.py:86-106 | the same acceptance condition as the accumulated check, for its own definition |
| OnsFiles.ThreeDateChecksAgree | functions.py:63-106 | the accumulated and differential checks accept exactly the same names, and both imply the plain check |
| OnsFiles.SeparatorsNotChecked | functions.py:52-55 | the characters at positions 0 and 7 of the second segment never affect any date slice |
| OnsFiles.DadosMapa | functions.py:127-144 | succeeds iff the plain check accepts; a failure names the first slice that is missing or not a date; the map name is the first segment; the run date is [1:7]; the end is [8:14]; the start is the day before the end |
| OnsFiles.DadosMapaReadBack | functions.py:137-144 | reading the written dates back gives the slices' dates, and the day after the start is the end |
| OnsFiles.DadosMapaAcc | functions.py:147-164 | succeeds iff the accumulated check accepts; the start is the day before [8:14] and the end is [15:21] |
| OnsFiles.DadosMapaAccReadBack | functions.py:157-164 | read back, the day after the start is the date at [8:14], and the end is the date at [15:21] |
| OnsFiles.DadosMapaDiff | functions.py:167-190 | succeeds iff the differential check accepts; the run dates are [1:7] and [8:14], the end is [15:21], and the start is the day before it |
| OnsFiles.DadosMapaDiffReadBack | functions.py:177-190 | read back, both run dates and the end are the slices' dates, and the day after the start is the end |
| OnsFiles.OnsNameAccepted | functions.py:42-60 | every name `dir/NAME_pDDMMYYaDDMMYY…` with a directory in front, built from two dates of 1969-2068, separators other than `_` and `/`, and a tail without `_` or `/`, is accepted, and `dados_Mapa` returns the name, the first date, and the day before the second date and the second date itself |
| OnsFiles.OnsAccNameAccepted | functions.py:147-164 | every name `dir/NAME_pDDMMYYaDDMMYYbDDMMYY…` with a directory in front, three in-range dates, separators other than `_` and `/`, and a tail without `_` or `/`, is accepted by the accumulated check, whatever the order of the dates, and `dados_Mapa_acc` returns the day before the second and the third |
| OnsBatch.FolderToClear | functions.py:115-117 | deletion goes ahead iff the folder is `input` or `output`, and the decision keeps the folder name |
| OnsBatch.Dedup | functions.py:239-240 | the result has no duplicates, holds exactly the values of the input, and keeps them in order of first occurrence |
| OnsBatch.DistinctCount | functions.py:240 | a duplicate-free list has as many elements as distinct values, so `len(lats)` counts distinct latitudes |
| OnsBatch.Reshape | functions.py:249 | `reshape(vals, (rows, -1))` succeeds iff `rows > 0` and `rows` divides the number of values; it gives `rows` equal rows that flatten back to the values |
| OnsBatch.ReshapeRowMajor | functions.py:249 | row `i`, column `j` holds value `i * cols + j` |
| OnsBatch.ReshapeFlatten | functions.py:249 | reshaping the flattening of a rectangular grid gives the grid back |
| OnsBatch.PrepareGrid | functions.py:239-249 | the coordinate lists lose their repeats but keep their values, in the order of first occurrence; the grid has one row per distinct latitude and succeeds iff that number divides the data length |
| OnsBatch.OutputPath | functions.py:255-259 | a given output path is used as it is; otherwise the path is `output/` + the input's basename without its last extension + `.png`, with no further `/` |
| OnsBatch.OutputPathReplacesExtension | functions.py:255-257 | for `dir/stem.ext` the picture is `output/stem.png`, whatever the directory and however many dots the stem holds |
| OnsBatch.OutputPathOfBasename | functions.py:255-257 | for any path whose basename is `stem.ext`, with or without a directory, the picture is `output/stem.png` |
| OnsBatch.OutputPathWithoutExtension | functions.py:255-257 | a basename without `.` is kept whole |

## Left out

- Everything that draws: `plt.figure`, `set_extent`, `add_feature`, `contourf`/`scatter`, the colour bar geometry, the gridlines, `show` and `savefig`. These are foreign library calls. The model stops at the plan that would be handed to them.
- Building an `ArquivoShape` (reading a shapefile), and the overlay objects created when `functions.py` is imported (functions.py:21-25). Shapes are opaque references. A path is recorded as "load fresh", and a failure to read it is not modelled.
- File and directory I/O: `open`, `glob`, `os.remove`, `sys.exit`, `pd.read_csv`, `print`, `lista_input`, and the skip-and-continue loops of `plotMapaONS*`. Only their pure steps are modelled. File contents are parameters.
- `float(...)`: an abstract partial parse, given as a parameter.
- Sorting the data by (lat, lon) before de-duplication. `PrepareGrid` takes the three columns after sorting.
- The map titles built with f-strings (functions.py:252, 332, 412). They are pure formatting with nothing to prove.
- `set_extent` needing exactly four coordinates, and the errors `ListedColormap(...).with_extremes` and `BoundaryNorm` (plotMap.py:168-172) can raise for unusable colour codes or breakpoints. These are plotting-library errors and are not modelled. Because those two calls run before the map kind is checked, the source can raise their error where `Render.PlanRender` reports `BadMapKind`.
- Calendar.ParseDdmmyy: strict reading of six ASCII digits. Python's `strptime` also accepts some shorter or space-padded fields, for example `11224` or ` 11224`. Those slices are rejected here.
- Text.IsSpace: the whitespace set is the one `str.isspace` uses for the characters listed. Unicode data beyond that set is not consulted.
- OnsBatch.Reshape: numpy also refuses `rows == 0` with no data. The model does the same. In the drivers this case arises only for an empty data file.
- Python's `datetime` has years 1 to 9999. Dates read here are always in 1969-2068, so `Previous` and `FormatDmy` never reach those limits.
- Text.Basename: POSIX `os.path` only. On Windows, `os.path` is `ntpath`, which also splits at `\` and after a drive letter such as `C:`; that behaviour is not modelled.
- OnsBatch.PrepareGrid: the columns are `seq<real>`, so the step from Python floats to reals is not modelled. In particular NaN is not represented: `dict.fromkeys` keeps every NaN value separately (NaN is not equal to itself), which reals cannot show.
