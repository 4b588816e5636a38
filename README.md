# stokespy instrument loaders, modelled in Dafny

This project models the file-selection and cube-assembly logic of
`stokespy/instload.py`. That module turns a directory of solar observations
into data cubes with world-coordinate headers, for two instruments.

- **SDO/HMI** (`get_HMI_data`, no-download path).
  - `parse_folder` keeps the listing's Stokes files (series `S_720s`) and
    inversion files (series `ME_720s_fd10`).
  - Both lists are narrowed to the files whose time stamp is closest to the
    requested date. Ties are all kept.
  - The distinct time stamps of each selection are reported.
  - The 24 Stokes filtergrams are stacked and reshaped into a
    (stokes, wavelength, y, x) cube.
  - The inversion maps are gathered parameter by parameter into a
    (parameter, y, x) cube.
  - Each cube's coordinate header is the header of the map loaded last, with
    extra axes assigned over it.
- **Hinode SP** (`get_SP_data`).
  - The sorted scan directory is filtered to its `.fits` entries.
  - Every scan file's (stokes, y, wavelength) block is written into slot `x` of
    a zero stack. The stack is transposed (1, 3, 2, 0) into a
    (stokes, wavelength, y, x) cube.
  - The requested inversion parameters are read from the level-2 file's
    extensions.
  - Two coordinate systems are built axis by axis from the two primary headers.

Modules, one per file:

- `Outcomes` (`outcomes.dfy`): the errors the Python code raises or returns,
  and `Result`/`Option`.
- `Text` (`text.dfy`): Python's `str.split`, `join`, `lower` and slicing.
- `Selection` (`selection.dfy`): subsequences chosen by a mask, and
  first-occurrence de-duplication.
- `FileFilter` (`filefilter.dfy`): `parse_folder`.
- `TimestampResolver` (`resolver.dfy`): closest-time-stamp selection and the
  unique-time-stamp loops.
- `HmiAssembly` (`assembly.dfy`): the Stokes stack and reshape, and the
  parameter-ordered inversion assembly.
- `Fits` (`fits.dfy`): header values, headers, images, decoded maps.
- `Coordinates` (`coords.dfy`): the HMI header extensions and the Hinode
  coordinate systems.
- `HinodeScan` (`hinode.dfy`): the Hinode scan listing, fill, transpose,
  level-2 slices and the whole loader.
- `HmiLoader` (`hmi.dfy`): the whole HMI loader.

Parameters stand in for everything outside the module:

- the directory listing (`listing`, already in natural-sort or sorted order);
- the time-stamp parser (`parseTime`, whole seconds);
- the map decoder of the HMI loader (`open`) and derotation (`rotate`, applied
  when `derotate` is set), which `Loader` combines into the per-file `load`;
- the FITS reader of the Hinode loader (`open`);
- `np.median` (`median`).

Loops that append or fill in place are methods with loop invariants. Each is
proved equal to a specification function, and the properties the source relies
on are proved as lemmas about those functions.

## Model

| member | source | states |
|---|---|---|
| Text.Split | stokespy/instload.py:35-37 | `str.split(sep)` always yields at least one piece |
| Text.JoinSplit | stokespy/instload.py:139 | joining the pieces of a split with the same separator gives the string back |
| Text.SplitJoin | stokespy/instload.py:139 | splitting a join of separator-free pieces gives the pieces back |
| Text.Take | stokespy/instload.py:139 | slicing `[0:n]` never fails: it is the first `n` items, or all of them when there are fewer, and always a prefix |
| Text.JoinTakeIsPrefix | stokespy/instload.py:139 | joining the first `n` pieces gives a prefix of the whole join |
| Text.SplitPrefix | stokespy/instload.py:138 | splitting `dir + name` at a separator that `dir` does not contain: `dir` joins the first piece, and the other pieces are the name's |
| Text.Lower | stokespy/instload.py:35 | lower-casing keeps the length |
| Selection.Select | stokespy/instload.py:144-146 | indexing by a mask keeps at most as many elements as there are |
| Selection.SelectIsSubsequence | stokespy/instload.py:144-146 | the masked selection is `xs[idx[k]]` for the strictly increasing list `idx` of marked positions; a position is in `idx` exactly when it is marked |
| Selection.MarkedIndicesSorted | stokespy/instload.py:144 | the positions `np.where` returns are strictly increasing, and exactly the marked ones |
| Selection.SelectNone | stokespy/instload.py:144-146 | a mask with no mark selects nothing |
| Selection.SelectAll | stokespy/instload.py:144-146 | a mask with every mark selects everything |
| Selection.SelectSingle | stokespy/instload.py:144-146 | a mask with a single mark selects just that element |
| Selection.SelectMembership | stokespy/instload.py:144-146 | a value is selected exactly when it sits at a marked position |
| Selection.FirstIndex | stokespy/instload.py:151 | the first position of a present value holds it and nothing before it does |
| Selection.DedupMembers | stokespy/instload.py:149-152 | first-occurrence de-duplication keeps exactly the values of the list, with no duplicates |
| Selection.DedupFirstOccurrenceOrder | stokespy/instload.py:149-152 | the de-duplicated values are in the order of their first occurrence |
| FileFilter.ClassifyCases | stokespy/instload.py:33-39 | a name fails to classify exactly for an unknown repository, or when its first token is the instrument and there is no second token; it is kept exactly when tokens 0 and 1 are the lower-cased instrument and series |
| FileFilter.Delimiter | stokespy/instload.py:34-37 | JSOC names are split at `.`, VSO names at `_`; any other repository has no delimiter, which leaves `sfile_` unbound (definition; its consequences are in `ClassifyCases`) |
| FileFilter.Classify | stokespy/instload.py:33-39 | one loop pass: keep, skip, or fail on an unknown repository or a one-token name that starts with the instrument (definition; `ClassifyCases` states the cases) |
| FileFilter.MatchMarksAt | stokespy/instload.py:39 | mark `i` says whether name `i` is kept |
| FileFilter.Prefixed | stokespy/instload.py:40 | every kept entry is `dir_path + name` (definition; see `SelectPrefixed`, `ParseFolderSelectsMatches`) |
| FileFilter.SelectPrefixed | stokespy/instload.py:40 | choosing among the joined paths with a mask is choosing among the names and joining afterwards |
| FileFilter.ParseFolder | stokespy/instload.py:31-40 | succeeds exactly when every name classifies, and then returns `dir_path + name` for the matching names in listing order; otherwise fails with the first name's error |
| FileFilter.ParseFolderSelectsMatches | stokespy/instload.py:28-40 | the result is the prefixed subsequence at strictly increasing positions, a position is used exactly when its name matches, and no match gives an empty list |
| TimestampResolver.TimeKey | stokespy/instload.py:139 | the key `'_'.join(token.split('_')[0:2])` is a prefix of the token |
| TimestampResolver.StampToken | stokespy/instload.py:138 | the token `f.split('.')[2]` (also read at line 151), or the error of a path with fewer than three dot-tokens (definition; see `Distances`, `StampTokensAt`) |
| TimestampResolver.TimeKeyCutsAtSecondUnderscore | stokespy/instload.py:139 | for a token `date_time_rest` whose date and time have no `_`, the key is `date_time` |
| TimestampResolver.Distance | stokespy/instload.py:139-140 | `abs(t.gps - user_date.gps)` for the instant parsed from the key of the file's token (definition; see `DistancesAt`) |
| TimestampResolver.Distances | stokespy/instload.py:138-140 | the differences exist exactly when every name has a third dot-token, one per file; otherwise the error is that of the first name without one |
| TimestampResolver.DistancesAt | stokespy/instload.py:140 | difference `i` is `abs(t_i - target)` for file `i` |
| TimestampResolver.MinOf | stokespy/instload.py:144 | the minimum is one of the differences and no larger than any of them |
| TimestampResolver.EqualMarks | stokespy/instload.py:144 | `d == d.min()` marks exactly the positions holding the minimum |
| TimestampResolver.MinMarkIsNearest | stokespy/instload.py:143-144 | a difference equals the minimum exactly when no other candidate is closer to the target |
| TimestampResolver.NearestMarksAt | stokespy/instload.py:144 | mark `i` is set exactly when candidate `i` is nearest |
| TimestampResolver.NearestMarks | stokespy/instload.py:143-144 | one mark per candidate (`tstamps_diff == tstamps_diff.min()`); `NearestMarksAt` states which are set |
| TimestampResolver.Resolve | stokespy/instload.py:143-146 | succeeds exactly for a non-empty list of well-formed names; the result is the subsequence selected by the minimum marks, non-empty and well-formed; no candidate is `NoMatch` |
| TimestampResolver.NearestSelectionNonEmpty | stokespy/instload.py:144-146 | some candidate is always nearest, so the selection of a non-empty list is non-empty |
| TimestampResolver.ResolveSelectsNearest | stokespy/instload.py:143-146 | a candidate is selected exactly when it is nearest; ties are all kept, in candidate order |
| TimestampResolver.ResolveKeepsAllTies | stokespy/instload.py:144-146 | candidates that all carry one time stamp are all selected |
| TimestampResolver.ResolveStokesAsWritten | stokespy/instload.py:137-146 | at most one Stokes candidate leaves `tstamps_diff` unbound; otherwise it agrees with `Resolve` |
| TimestampResolver.ResolveMagvecAsWritten | stokespy/instload.py:168-180 | at most one inversion candidate returns `None`; otherwise it agrees with `Resolve` |
| TimestampResolver.LoneCandidateRejected | stokespy/instload.py:137-174 | a single well-formed candidate is the closest one, yet both branches as written reject it |
| TimestampResolver.StampTokens | stokespy/instload.py:151 | one time-stamp token per file |
| TimestampResolver.StampTokensAt | stokespy/instload.py:151 | token `i` is `files[i].split('.')[2]` |
| TimestampResolver.StampTokensPrefix | stokespy/instload.py:150-151 | the tokens of the first `n` files are the first `n` tokens |
| TimestampResolver.DedupStampStep | stokespy/instload.py:150-152 | one pass appends the file's token exactly when it is not listed yet |
| TimestampResolver.UniqueTimestamps | stokespy/instload.py:149-152 | the loop returns the de-duplicated tokens: each selected file's token, once, with no duplicates |
| TimestampResolver.UniqueStampsMeaning | stokespy/instload.py:149-152 | a value is listed exactly when some file carries it as its token, and none is listed twice |
| TimestampResolver.StampListed | stokespy/instload.py:151-152 | a token is among the tokens exactly when some file carries it |
| TimestampResolver.UniqueTimestampsAsWritten | stokespy/instload.py:182-185 | the inversion loop as written fails with an index error when there are more Stokes files than inversion files, and otherwise de-duplicates only the first `len(stokes)` inversion files |
| TimestampResolver.TypicalInversionDedupFails | stokespy/instload.py:183-185 | with 24 Stokes files and 3 inversion files, the loop as written fails at index 3 |
| TimestampResolver.StampTokenUnderDirectory | stokespy/instload.py:138 | a directory without `.` changes neither whether a name has a token nor which token it is |
| TimestampResolver.DottedDirectoryShiftsToken | stokespy/instload.py:138 | under a directory `home.user...` the third dot-token of `dir + name` is the series, while that of the name is its time stamp |
| TimestampResolver.WellFormedUnderDirectory | stokespy/instload.py:138 | under a directory without `.`, the joined paths all have tokens exactly when the names do |
| TimestampResolver.NearestMarksUnderDirectory | stokespy/instload.py:138-144 | under a directory without `.`, the same candidates are nearest among the paths as among the names |
| TimestampResolver.ResolveUnderDirectory | stokespy/instload.py:137-146 | under a directory without `.`, resolving the joined paths succeeds exactly when resolving the names does, and gives the chosen names joined |
| TimestampResolver.StampTokensUnderDirectory | stokespy/instload.py:149-152 | under a directory without `.`, the joined paths carry the names' tokens |
| HmiAssembly.Loader | stokespy/instload.py:196-200 | a file is decoded, then rotated exactly when derotation is requested (definition; see `HmiLoader.LoadHmi`) |
| HmiAssembly.ImagesOf | stokespy/instload.py:195-200 | image `k` of the stack is the data of file `k` |
| HmiAssembly.LastLoaded | stokespy/instload.py:197-199 | `tmp_map` after a loading loop: nothing for no file, else the map of the last file (definition; see `ImagesOfSnoc`, `LoadStack`) |
| HmiAssembly.ImagesOfSnoc | stokespy/instload.py:200 | loading one more file appends its data and makes its map the last one |
| HmiAssembly.LoadStack | stokespy/instload.py:195-200 | the loop returns every file's data in file order, and the map loaded last |
| HmiAssembly.StokesCube | stokespy/instload.py:202-203 | reshaping succeeds exactly for 24 images of one shape; an empty stack, ragged images and any other count each give their own error; `cube[s][w] = images[6*s + w]` |
| HmiAssembly.FlattenLength | stokespy/instload.py:203 | a grid of rows of 6 read row by row has `6 * rows` images, with `[s][w]` at `6*s + w` |
| HmiAssembly.StokesCubeFlattens | stokespy/instload.py:202-203 | the cube read back row by row is the stack |
| HmiAssembly.StokesCubeOfFlatten | stokespy/instload.py:202-203 | every 4 x 6 grid of same-shape images is the cube of its own flattening |
| HmiAssembly.StokesCubeShape | stokespy/instload.py:202-203 | every image of the cube has the shape of the first one |
| HmiAssembly.ParamToken | stokespy/instload.py:247 | `fname.split('.')[-2]`, or the error of a name with no dot (definition; see `ParamIdsAt`) |
| HmiAssembly.ParamIds | stokespy/instload.py:247 | one parameter segment (or error) per file |
| HmiAssembly.ParamIdsAt | stokespy/instload.py:247 | id `i` is `files[i].split('.')[-2]`, or the error of a name with fewer than two segments |
| HmiAssembly.IdMarksAt | stokespy/instload.py:248 | file `i` is gathered for `p` exactly when its id is `p` |
| HmiAssembly.LoadInto | stokespy/instload.py:249-253 | appending a file keeps the images and the last map equal to what loading the names in order gives |
| HmiAssembly.CollectParameter | stokespy/instload.py:246-253 | one inner pass succeeds exactly when every name has a parameter segment, and otherwise fails with the first one's error; on success it appends the files of `p` in file order, with their data |
| HmiAssembly.CollectIds | stokespy/instload.py:246-253 | the same pass over the files' ids: it succeeds exactly when every id is a segment, fails with the first error, and appends the files marked for `p` |
| HmiAssembly.CollectStep | stokespy/instload.py:246-249 | one more file is gathered exactly when its id is `p` |
| HmiAssembly.ParamIdsOkUpTo | stokespy/instload.py:247 | when the first `n` ids are segments, the first `n` names have one |
| HmiAssembly.AssembleParameters | stokespy/instload.py:244-257 | the nested loop succeeds exactly when no parameter is asked for or every name has a segment; on success the stack is the files of `params[0]` in file order, then those of `params[1]`, and so on, with their data |
| HmiAssembly.GroupByStep | stokespy/instload.py:245 | one more outer pass appends the files of that parameter |
| HmiAssembly.GroupBy | stokespy/instload.py:245-253 | the elements of `params[0]` in order, then those of `params[1]`, and so on (definition; see `GroupByMembership`, `GroupByOnePerParameter`) |
| HmiAssembly.Grouped | stokespy/instload.py:245-253 | the inversion files in cube order, grouped by their parameter segment (definition; see `GroupedMembership`, `OneFilePerParameter`) |
| HmiAssembly.GroupByAppend | stokespy/instload.py:245-253 | the stack for `ps + qs` is the stack for `ps` followed by the stack for `qs` |
| HmiAssembly.GroupByNone | stokespy/instload.py:245-253 | a parameter no element carries gathers nothing |
| HmiAssembly.GroupByMissing | stokespy/instload.py:245-253 | removing a parameter no element carries leaves the stack unchanged |
| HmiAssembly.MissingParameterContributesNothing | stokespy/instload.py:245-257 | a parameter no file carries contributes no slice: the cube silently has fewer slices than parameters |
| HmiAssembly.GroupByMembership | stokespy/instload.py:245-249 | an element is gathered exactly when it carries one of the parameters |
| HmiAssembly.GroupedMembership | stokespy/instload.py:245-249 | a file is in the cube exactly when it is listed and its segment is one of the parameters |
| HmiAssembly.GroupByOnePerParameter | stokespy/instload.py:236-257 | with exactly one element per parameter, slice `j` is that of `params[j]` |
| HmiAssembly.OwnedSlice | stokespy/instload.py:246-249 | a parameter carried by one element gathers just that element |
| HmiAssembly.OwnersOfRest | stokespy/instload.py:245 | the one-owner-per-parameter condition carries over to the remaining parameters |
| HmiAssembly.OneFilePerParameter | stokespy/instload.py:236-257 | with exactly one file per parameter, the cube has one slice per parameter, slice `j` being the file of `params[j]`, whatever the listing order |
| Fits.Lookup | stokespy/instload.py:705-706 | reading a keyword succeeds exactly when the header has it, and gives its value (definition; see `Coordinates.BuildSpWcs`) |
| Coordinates.ExtendStokesHeader | stokespy/instload.py:215-231 | the result has the keys of the map header plus the 11 wavelength/Stokes keywords; those hold the fixed values, and every other key keeps the map header's value |
| Coordinates.ExtendParameterHeader | stokespy/instload.py:268-277 | the result has the map header's keys plus the 6 parameter-axis keywords; those hold the fixed values, and every other key is unchanged |
| Coordinates.ExtensionKeepsSpatialAxes | stokespy/instload.py:217-231 | no extension changes a keyword of celestial axis 1 or 2 |
| Coordinates.StokesAxesDescribeCube | stokespy/instload.py:210-231 | `WCSAXES` is 4; wavelength pixel 3.5 (the middle of six) is the 6173.345 Angstrom line core, and pixel 1 is 2.5 steps below it; Stokes pixels 1..4 map to codes 1..4 |
| Coordinates.ParameterAxisDescribesCube | stokespy/instload.py:270-277 | `WCSAXES` is 3, axis 3 is `Parameter`, and parameter pixel `p` has world coordinate `p` |
| Coordinates.World | stokespy/instload.py:220-231 | a world coordinate exists only when the axis's three keywords are present |
| Coordinates.AxisTypes | stokespy/instload.py:734 | one `CTYPE` per axis, that axis's type |
| Coordinates.Reverse | stokespy/instload.py:729-732 | reversal keeps the length and puts element `k` at `n-1-k` |
| Coordinates.CentrePixel | stokespy/instload.py:736 | `(NAXISn + 1) / 2` exists exactly for a numeric value, and is that value plus one, halved |
| Coordinates.BuildSpWcs | stokespy/instload.py:733-753 | succeeds exactly when the first scan header has `CUNIT1`, `CRPIX1`, `CRVAL1` and `CDELT1`, and the inversion header has numeric `NAXIS1` and `NAXIS2` plus `XSCALE` and `YSCALE`; otherwise the error names a missing or non-numeric keyword |
| Coordinates.BuildSpWcsFirstFailure | stokespy/instload.py:735-739 | the systems are built exactly when no keyword read fails, and otherwise the error is that of the first failing read in the order `CUNIT1`, `NAXIS1` (present, then numeric), `NAXIS2` (likewise), `CRPIX1`, `CRVAL1`, `XSCALE`, `YSCALE`, `CDELT1` |
| Coordinates.ReversedAxisTypes | stokespy/instload.py:729-747 | the axis types in reverse data-axis order are `HPLN-TAN, HPLT-TAN, WAVE, STOKES` and `HPLN-TAN, HPLT-TAN, Parameter` |
| Coordinates.SpWcsLayout | stokespy/instload.py:733-753 | one world axis per data axis, typed in reverse data-axis order; both systems share the celestial axes from the inversion header and the pointing medians; the wavelength axis is the scan header's axis 1; the Stokes and parameter axes are plain indices |
| HinodeScan.JoinPath | stokespy/instload.py:684 | `os.path.join(dir, name)` ends with `name` |
| HinodeScan.Level1Dir | stokespy/instload.py:679 | the scan directory starts with `user_dir` and ends with the date; no separator is put after `user_dir` |
| HinodeScan.Level2Path | stokespy/instload.py:711 | the inversion file name starts with `user_dir` and ends in `.fits` |
| HinodeScan.FitsMarksAt | stokespy/instload.py:682 | entry `i` is kept exactly when it ends in `.fits` |
| HinodeScan.JoinedAt | stokespy/instload.py:684 | path `k` is entry `k` joined to the directory |
| HinodeScan.ListScanFiles | stokespy/instload.py:680-684 | the loop returns the joined `.fits` entries in listing order |
| HinodeScan.ScanFiles | stokespy/instload.py:681-684 | the `.fits` entries of the listing, joined to the directory (definition; see `ScanFilesMeaning`) |
| HinodeScan.ScanFilesMeaning | stokespy/instload.py:681-684 | the scan files are the joined entries at strictly increasing positions; a position is used exactly when its entry ends in `.fits`, and every scan file is a `.fits` path |
| HinodeScan.EndsWithChain | stokespy/instload.py:682-684 | a suffix of a suffix is a suffix |
| HinodeScan.Zeros | stokespy/instload.py:692 | `np.zeros((a, b, c))` has shape (a, b, c) |
| HinodeScan.StackOfBoxes | stokespy/instload.py:692-703 | slots of one box shape form a stack of that shape |
| HinodeScan.Transposed | stokespy/instload.py:708 | `transpose(1, 3, 2, 0)` has shape (ns, nw, ny, nx), with `out[s][w][y][x] = in[x][s][y][w]` |
| HinodeScan.Untransposed | stokespy/instload.py:708 | the inverse permutation gives a stack of shape (nx, ns, ny, nw) |
| HinodeScan.TransposeRoundTrip | stokespy/instload.py:708 | transposing back gives the stack again: the transpose loses nothing |
| HinodeScan.Blocks | stokespy/instload.py:701-703 | slot `ix` is the primary data of scan file `ix` (definition; see `FillSlots`, `ScanCubeHoldsFiles`) |
| HinodeScan.Headers | stokespy/instload.py:704 | `head_all[ix]` is the primary header of scan file `ix` (definition; see `FillSlots`, `LoadSp`) |
| HinodeScan.Pointing | stokespy/instload.py:705-706 | `xcen_a[ix]` / `ycen_a[ix]` is the keyword of scan file `ix` (definition; see `FillSlots`, `LoadSp`) |
| HinodeScan.Shape | stokespy/instload.py:691 | `data.shape` unpacks into (Nstokes, Ny, Nwav): a shape is found exactly when the data is a box of some shape, and the data is a box of the shape found |
| HinodeScan.SlotShape | stokespy/instload.py:690-691 | the slot shape is the shape of the first scan file's data, and there is one exactly when there is a first file and its data is a box |
| HinodeScan.Admit | stokespy/instload.py:702-706 | one pass succeeds exactly when the data fits the slot shape and the header has `XCEN` and `YCEN`, and yields those two values |
| HinodeScan.FillSlots | stokespy/instload.py:692-706 | the fill loop succeeds exactly when every file is admitted, and otherwise fails with the first failing file's error; on success the stack, headers and pointing lists are the files' own, slot by slot |
| HinodeScan.ScanLoaded | stokespy/instload.py:701-706 | the filled stack is a stack of the slot shape, and its transpose, headers and pointing lists are `Transposed`, `Headers` and `Pointing` of the files |
| HinodeScan.ReadScan | stokespy/instload.py:686-708 | no scan file is an error; a first file without a 3-D shape is a shape error; the scan succeeds exactly when every file is admitted; the result is the transposed cube, the headers and the pointing lists |
| HinodeScan.ScanCubeHoldsFiles | stokespy/instload.py:701-708 | the cube has shape (ns, nw, ny, number of files), and `cube[s][w][y][x]` is element `[s][y][w]` of scan file `x` |
| HinodeScan.ScanCube | stokespy/instload.py:708 | the transposed cube has shape (Nstokes, Nwav, Ny, number of files) |
| HinodeScan.ZeroImage | stokespy/instload.py:716 | `np.zeros((ny, nx))` is a rectangular ny x nx image |
| HinodeScan.SliceShape | stokespy/instload.py:714 | the slice shape is the shape of the `Field_Strength` extension, and there is none without it (definition; see `ReadParameters`) |
| HinodeScan.Slice | stokespy/instload.py:717-718 | pass `i` succeeds exactly when extension `p` exists and has the slice shape, and yields that extension |
| HinodeScan.Slices | stokespy/instload.py:716-718 | one slice per parameter; slice `i` is the extension named `params[i]`, and it has the `Field_Strength` shape |
| HinodeScan.ReadParameters | stokespy/instload.py:714-718 | no `Field_Strength` extension is an error; the loop succeeds exactly when every parameter's extension exists with that shape, fails at the first that does not, and yields the slices |
| HinodeScan.SlicesAppend | stokespy/instload.py:717-718 | parameters are read independently: `ps + qs` loads exactly when both parts do, and its slices are those of `ps` followed by those of `qs` |
| HinodeScan.LoadSp | stokespy/instload.py:679-755 | no scan file is an error; the loader succeeds exactly when the scan loads, every parameter slice loads and both coordinate systems can be built; every returned field is its specification function applied to the files (`Headers`, `ScanCube`, `Slices`, `BuildSpWcs`) |
| HmiLoader.LoadHmi | stokespy/instload.py:135-281 | with `mag_params = ['field', 'inclination', 'azimuth']` and every file read by `sunpy.map.Map`, then rotated when `derotate` is set: succeeds exactly when both listings filter, both series have a file near the target, the Stokes images reshape, and every closest inversion path has a parameter segment; the Stokes cube is `StokesCube` of the closest Stokes images, the inversion cube is their `Grouped` images, each header is the last loaded map's header with the extra axes assigned over it, and the reported time stamps are `Dedup` of the closest names' tokens |
| HmiLoader.AssembleCubes | stokespy/instload.py:195-279 | the Stokes cube is the reshaped stack and its header extends the last Stokes map's; the inversion cube is the grouped images and its header extends the header of the map loaded last |
| HmiLoader.NoInversionFallsBackToStokesMap | stokespy/instload.py:244-268 | when no inversion file carries a requested parameter, the inversion cube is empty and its header comes from the last Stokes map |
| HmiLoader.Names | stokespy/instload.py:135 | the listed names of one series, at most as many as the listing holds |
| HmiLoader.Candidates | stokespy/instload.py:135 | what `parse_folder` returns: at most one path per listed name, each starting with the directory |
| HmiLoader.ClosestByPath | stokespy/instload.py:135-146 | the path-token choice with the corrected `len > 1` guard: the stamp is read off the whole path; the choice exists exactly when there are candidates and all have tokens, and is a non-empty list of well-formed paths |
| HmiLoader.ClosestNames | stokespy/instload.py:135-146 | the closest names with the time stamp read off the name: they exist exactly when there are names and all have tokens, and are a non-empty list of well-formed names |
| HmiLoader.ClosestAgreesWithoutDots | stokespy/instload.py:135-185 | under a directory without `.`, the path-token choice (`ClosestByPath`, corrected guard) succeeds exactly when the name-token choice does, picks the same files joined to the directory, and reports the same time stamps |
| HmiLoader.HeaderMap | stokespy/instload.py:268 | the map the inversion header is read from: the last inversion map loaded, or the last Stokes map (line 215) when none was (definition; see `NoInversionFallsBackToStokesMap`) |

## Left out

- Downloading through `Fido.search` / `Fido.fetch` and the `attrs.jsoc` query are not modelled (network). Neither are `os.listdir`, `os.makedirs` and the `os.getcwd()` defaults of the directory arguments (file system). The listing is a parameter.
- Natural sort (`natsort.natsorted`) and `sorted` are not modelled: the listing is taken to be in that order already.
- `sunpy.map.Map`, `astropy.io.fits.open` and `rotate(order=3)` are not modelled (foreign decoders). They are parameters: the HMI decoder and `rotate` are combined by `Loader`; the Hinode reader is `open`.
- The `astropy.wcs.WCS(...)` constructor and `.wcs.set()` are not modelled: the HMI result is the extended header dictionary and the Hinode result is the assigned axis lists.
- `sunpy.time.parse_time` and GPS float arithmetic are not modelled: times are whole seconds from the parameter `parseTime`.
- `np.median` of the pointing lists is not modelled: it is the parameter `median`.
- Header values are exact decimals (`real`): the model has no floating-point rounding.
- Text.Lower: lower-cases ASCII letters only, not the full Unicode mapping of `str.lower()`.
- HmiAssembly.StokesCube: a count of zero-pixel images other than 24, which numpy would still reshape, is reported as a reshape error.
- `np.asarray(level2_data)` over images of unequal shape is not modelled: the inversion cube is the sequence of images.
- HinodeScan.Admit, HinodeScan.FillSlots, HinodeScan.Slice, HinodeScan.ReadParameters: assigning a slice of another shape into a numpy zero array can broadcast; the model reports `ShapeMismatch` for any shape other than the slot's.
- `print` diagnostics and the commented-out alternative filters and header reads are not modelled.
- The download branch of `get_HMI_data` is not modelled.
- `get_HMI_data_BK` and `get_HMI_data_test` are not modelled separately: they repeat the main loader's file selection and cube shapes, and their own differences are not captured. Neither takes a `derotate` argument or derotates (stokespy/instload.py:283, 473). Both read the level-1 header from the first Stokes file, `sunpy.map.Map(all_fnames_stokes[0])`, rather than from the last map loaded (412, 603). Both read the inversion data as `hdulist[1].data` through `astropy.io.fits.open` rather than through `sunpy.map.Map` (446, 637). Both read the level-2 header from the first Stokes file as well (458, 649). `_test` asks only for the parameter `field` (625).
- HmiLoader.LoadHmi: it resolves time stamps with the corrected `Resolve`, reading each time stamp off the file name rather than the whole path, and lists the inversion time stamps with the corrected `UniqueTimestamps`. The as-written versions are modelled separately (see Findings).
- HmiLoader.ClosestByPath: it reads the time stamp off the whole path as the source does, but chooses with the corrected `Resolve`: a single candidate is accepted, where the branches as written leave `tstamps_diff` unbound (Stokes) or return `None` (inversion). Those guards are `ResolveStokesAsWritten` and `ResolveMagvecAsWritten`.

## Findings

| source | as written | input that shows it | evidently intended | confidence | as-written member | corrected member |
|---|---|---|---|---|---|---|
| stokespy/instload.py:137-143 | `tstamps_diff` is computed only under `if len(all_fnames_stokes) > 1`, then used unconditionally | a data folder with exactly one Stokes file: the name `tstamps_diff` is unbound | select the single file as the closest one | not executed | TimestampResolver.ResolveStokesAsWritten | TimestampResolver.Resolve |
| stokespy/instload.py:168-174 | with `len(all_fnames_magvec) > 1` false the loader prints that nothing was found and returns `None` | a data folder with exactly one inversion file | select the single file as the closest one | not executed | TimestampResolver.ResolveMagvecAsWritten | TimestampResolver.Resolve |
| stokespy/instload.py:183-185 | the inversion de-duplication loops over `range(len(all_fnames_stokes))` while indexing `all_fnames_magvec` | 24 selected Stokes files and 3 selected inversion files: an index error at `i = 3` | loop over the inversion files themselves | not executed | TimestampResolver.TypicalInversionDedupFails | TimestampResolver.UniqueTimestamps |
| stokespy/instload.py:138 | the time stamp is the third `.`-separated token of the whole path `user_dir + name` that `parse_folder` returns (also at lines 151, 169 and 184) | `user_dir = '/Users/jane.doe/Data/SDO/'`: the third token of every path is the series `S_720s`, not the time stamp | read the token off the file name | not executed | TimestampResolver.DottedDirectoryShiftsToken | HmiLoader.ClosestNames |

`TimestampResolver.LoneCandidateRejected` shows the first two rows on one input: a single well-formed candidate is the answer of `Resolve`, and both branches as written reject it. `TimestampResolver.UniqueTimestampsAsWritten` models the third row's loop for every pair of counts. `HmiLoader.ClosestByPath` is the fourth row's path-token choice, taken with the corrected guard of the first two rows; `HmiLoader.ClosestAgreesWithoutDots` shows that it agrees with `HmiLoader.ClosestNames` whenever the directory has no dot.
