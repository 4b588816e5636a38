/** The HMI loader `get_HMI_data` without download: the Stokes and inversion
    files of the data directory are filtered by series, narrowed to the time
    stamp closest to the target, and assembled into the Stokes cube and the
    inversion cube, each with its coordinate header. */
module HmiLoader {
  import opened Outcomes
  import opened Fits
  import opened Selection
  import opened FileFilter
  import opened TimestampResolver
  import opened HmiAssembly
  import opened Coordinates

  const Instrument: string := "hmi"
  const StokesSeries: string := "S_720s"
  const InversionSeries: string := "ME_720s_fd10"

  /** The inversion parameters `get_HMI_data` asks for, in cube order. */
  const MagParams: seq<string> := ["field", "inclination", "azimuth"]

  /** `parse_folder(user_dir, inst='hmi', series=...)` succeeds on the listing. */
  predicate Listed(listing: seq<string>, series: string)
  {
    forall i :: 0 <= i < |listing| ==> Classify(listing[i], Instrument, series, "JSOC").Ok?
  }

  /** The names of one series in the listing, in listing order. */
  function Names(listing: seq<string>, series: string): (r: seq<string>)
    ensures |r| <= |listing|
  {
    Select(listing, MatchMarks(listing, Instrument, series, "JSOC"))
  }

  /** What `parse_folder` returns for one series when it succeeds. */
  function Candidates(dir: string, listing: seq<string>, series: string): (r: seq<string>)
    ensures |r| <= |listing|
    ensures forall k :: 0 <= k < |r| ==> dir <= r[k]
  {
    Prefixed(dir, Names(listing, series))
  }

  /** The files of one series closest in time to the target, the time stamp read
      off the whole path `user_dir + name` as the source reads it, but chosen by
      `Resolve`, that is with the corrected guard that accepts a single candidate. */
  function ClosestByPath(dir: string, listing: seq<string>, series: string, target: int, parseTime: string -> int)
    : (r: Result<seq<string>>)
    ensures r.Ok? <==> |Candidates(dir, listing, series)| > 0 && WellFormed(Candidates(dir, listing, series))
    ensures r.Ok? ==> |r.value| > 0 && WellFormed(r.value)
  {
    Resolve(Candidates(dir, listing, series), target, parseTime)
  }

  /** The names of one series closest in time to the target, the time stamp read
      off the file name alone; the loader joins them to the directory afterwards,
      so the choice does not depend on the directory. */
  function ClosestNames(listing: seq<string>, series: string, target: int, parseTime: string -> int)
    : (r: Result<seq<string>>)
    ensures r.Ok? <==> |Names(listing, series)| > 0 && WellFormed(Names(listing, series))
    ensures r.Ok? ==> |r.value| > 0 && WellFormed(r.value)
  {
    Resolve(Names(listing, series), target, parseTime)
  }

  /** Under a directory without a dot the two choices are the same files with the
      same time stamps. */
  lemma ClosestAgreesWithoutDots(dir: string, listing: seq<string>, series: string, target: int,
                                 parseTime: string -> int)
    requires '.' !in dir
    ensures ClosestByPath(dir, listing, series, target, parseTime).Ok? ==
            ClosestNames(listing, series, target, parseTime).Ok?
    ensures ClosestNames(listing, series, target, parseTime).Ok? ==>
              var names := ClosestNames(listing, series, target, parseTime).value;
              && ClosestByPath(dir, listing, series, target, parseTime).value == Prefixed(dir, names)
              && WellFormed(Prefixed(dir, names))
              && StampTokens(Prefixed(dir, names)) == StampTokens(names)
  {
    ResolveUnderDirectory(dir, Names(listing, series), target, parseTime);
    if ClosestNames(listing, series, target, parseTime).Ok? {
      StampTokensUnderDirectory(dir, ClosestNames(listing, series, target, parseTime).value);
    }
  }

  /** The Stokes cube, its header, the inversion cube and its header, and the
      distinct time stamps of the Stokes and the inversion files the loader reports. */
  datatype HmiObservation = HmiObservation(level1: seq<seq<Image>>, level1Header: Header,
                                           level2: seq<Image>, level2Header: Header,
                                           stokesStamps: seq<string>, inversionStamps: seq<string>)

  /** The map the inversion header is read from: `tmp_map` after the inversion
      loop, that is the last inversion map loaded, or the last Stokes map when
      the loop loaded none. */
  function HeaderMap(stokes: seq<string>, grouped: seq<string>, load: string -> SolarMap): SolarMap
    requires |stokes| > 0
  {
    if grouped == [] then load(Last(stokes)) else load(Last(grouped))
  }

  /** The whole loader, for the parameters `MagParams`, each file decoded by
      `open` and, when `derotate` is set, rotated by `rotate`. It succeeds exactly
      when both listings can be filtered, each series has a file near the target,
      the Stokes images reshape to (4, 6, Y, X), and every inversion file has a
      parameter segment. The Stokes cube holds the nearest Stokes images; the
      inversion cube holds the nearest inversion images grouped by parameter; each
      header is the header of the map loaded last before it, with the extra axes
      assigned over it; the reported time stamps are those of each selection, once
      each, in order of first occurrence. */
  method LoadHmi(userDir: string, listing: seq<string>, target: int, parseTime: string -> int,
                 open: string -> SolarMap, derotate: bool, rotate: SolarMap -> SolarMap)
    returns (r: Result<HmiObservation>)
    ensures r.Ok? <==>
      && Listed(listing, StokesSeries) && ClosestNames(listing, StokesSeries, target, parseTime).Ok?
      && Listed(listing, InversionSeries) && ClosestNames(listing, InversionSeries, target, parseTime).Ok?
      && StokesCube(ImagesOf(Prefixed(userDir, ClosestNames(listing, StokesSeries, target, parseTime).value),
                             Loader(open, derotate, rotate))).Ok?
      && ParamWellFormed(Prefixed(userDir, ClosestNames(listing, InversionSeries, target, parseTime).value))
    ensures r.Ok? ==>
      var load := Loader(open, derotate, rotate);
      var stokesNames := ClosestNames(listing, StokesSeries, target, parseTime).value;
      var inversionNames := ClosestNames(listing, InversionSeries, target, parseTime).value;
      var stokes := Prefixed(userDir, stokesNames);
      var grouped := Grouped(Prefixed(userDir, inversionNames), MagParams);
      && |stokes| > 0
      && r.value.stokesStamps == Dedup(StampTokens(stokesNames))
      && r.value.inversionStamps == Dedup(StampTokens(inversionNames))
      && r.value.level1 == StokesCube(ImagesOf(stokes, load)).value
      && OverriddenBy(r.value.level1Header, load(Last(stokes)).header, StokesCubeAxes)
      && r.value.level2 == ImagesOf(grouped, load)
      && OverriddenBy(r.value.level2Header, HeaderMap(stokes, grouped, load).header, ParameterCubeAxes)
  {
    var load := Loader(open, derotate, rotate);
    // `parse_folder` fails or returns the matching names joined to the directory;
    // the time stamps are read off the names.
    var stokesFiles :- ParseFolder(userDir, listing, Instrument, StokesSeries, "JSOC");
    var stokesNames :- Resolve(Names(listing, StokesSeries), target, parseTime);
    var stokesStamps := UniqueTimestamps(stokesNames);
    var inversionFiles :- ParseFolder(userDir, listing, Instrument, InversionSeries, "JSOC");
    var inversionNames :- Resolve(Names(listing, InversionSeries), target, parseTime);
    var inversionStamps := UniqueTimestamps(inversionNames);
    var cubes :- AssembleCubes(Prefixed(userDir, stokesNames), Prefixed(userDir, inversionNames), load, MagParams);
    return Ok(cubes.(stokesStamps := stokesStamps, inversionStamps := inversionStamps));
  }

  /** From the closest files on: load and reshape the Stokes cube, extend its
      header, gather the inversion cube, extend its header. The time-stamp lists
      are left empty for the caller to fill. */
  method AssembleCubes(stokes: seq<string>, inversion: seq<string>, load: string -> SolarMap, params: seq<string>)
    returns (r: Result<HmiObservation>)
    requires |stokes| > 0
    ensures r.Ok? <==> StokesCube(ImagesOf(stokes, load)).Ok? && (params == [] || ParamWellFormed(inversion))
    ensures r.Ok? ==>
      var grouped := Grouped(inversion, params);
      && r.value.level1 == StokesCube(ImagesOf(stokes, load)).value
      && OverriddenBy(r.value.level1Header, load(Last(stokes)).header, StokesCubeAxes)
      && r.value.level2 == ImagesOf(grouped, load)
      && OverriddenBy(r.value.level2Header, HeaderMap(stokes, grouped, load).header, ParameterCubeAxes)
  {
    var images, last := LoadStack(stokes, load);
    var cube :- StokesCube(images);
    var header1 := ExtendStokesHeader(last.value.header);
    var level2 :- AssembleParameters(inversion, params, load);
    var tmpMap := if level2.last.Some? then level2.last.value else last.value;
    var header2 := ExtendParameterHeader(tmpMap.header);
    return Ok(HmiObservation(cube, header1, level2.images, header2, [], []));
  }

  /** With no inversion file for any requested parameter the inversion cube is
      empty and its header is built from the last Stokes map. */
  lemma {:induction false} NoInversionFallsBackToStokesMap(stokes: seq<string>, inversion: seq<string>,
                                                           params: seq<string>, load: string -> SolarMap)
    requires |stokes| > 0
    requires forall i, p :: 0 <= i < |inversion| && p in params ==> ParamToken(inversion[i]) != Ok(p)
    ensures Grouped(inversion, params) == []
    ensures HeaderMap(stokes, Grouped(inversion, params), load) == load(Last(stokes))
  {
    if params != [] {
      var p, rest := params[0], params[1..];
      assert p in params;
      assert [] + [p] + rest == params && [] + rest == rest;
      MissingParameterContributesNothing(inversion, [], p, rest);
      assert forall q :: q in rest ==> q in params;
      NoInversionFallsBackToStokesMap(stokes, inversion, rest, load);
    }
  }
}
