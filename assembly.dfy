/** The HMI data cubes: the 24 Stokes filtergrams stacked and reshaped into a
    (stokes, wavelength, y, x) cube, and the inversion maps gathered parameter by
    parameter into a (parameter, y, x) cube. */
module HmiAssembly {
  import opened Outcomes
  import opened Text
  import opened Selection
  import opened Fits

  /** How one file becomes a map: `sunpy.map.Map(fname)`, followed by
      `rotate(order=3)` when derotation is requested. The same loader serves both
      cubes. */
  function Loader(open: string -> SolarMap, derotate: bool, rotate: SolarMap -> SolarMap): (load: string -> SolarMap)
    ensures forall f :: load(f) == if derotate then rotate(open(f)) else open(f)
  {
    if derotate then f => rotate(open(f)) else open
  }

  /** The pixel data of each named file, in order. */
  function ImagesOf(names: seq<string>, load: string -> SolarMap): (r: seq<Image>)
    ensures |r| == |names|
    ensures forall k {:trigger r[k]} :: 0 <= k < |names| ==> r[k] == load(names[k]).data
  {
    if names == [] then [] else ImagesOf(DropLast(names), load) + [load(Last(names)).data]
  }

  /** The map loaded last from `names`: the `tmp_map` left behind by a loading loop. */
  function LastLoaded(names: seq<string>, load: string -> SolarMap): Option<SolarMap>
  {
    if names == [] then None else Some(load(Last(names)))
  }

  lemma ImagesOfSnoc(names: seq<string>, name: string, load: string -> SolarMap)
    ensures ImagesOf(names + [name], load) == ImagesOf(names, load) + [load(name).data]
    ensures LastLoaded(names + [name], load) == Some(load(name))
  {
    assert DropLast(names + [name]) == names;
  }

  // ---------------------------------------------------------------------------
  // Level 1: the Stokes cube
  // ---------------------------------------------------------------------------

  /** Loading the Stokes files one by one, in the order the resolver left them. */
  method LoadStack(files: seq<string>, load: string -> SolarMap) returns (images: seq<Image>, last: Option<SolarMap>)
    ensures images == ImagesOf(files, load)
    ensures last == LastLoaded(files, load)
  {
    images, last := [], None;
    var i := 0;
    while i < |files|
      invariant 0 <= i <= |files|
      invariant images == ImagesOf(files[..i], load)
      invariant last == LastLoaded(files[..i], load)
    {
      var m := load(files[i]);
      ImagesOfSnoc(files[..i], files[i], load);
      assert files[..i + 1] == files[..i] + [files[i]];
      images := images + [m.data];
      last := Some(m);
      i := i + 1;
    }
    assert files[..i] == files;
  }

  /** The images of a cube, row by row: the order in which `reshape` reads them. */
  function Flatten(cube: seq<seq<Image>>): (r: seq<Image>)
  {
    if cube == [] then [] else cube[0] + Flatten(cube[1..])
  }

  /** A 4 x 6 grid of images. */
  predicate IsStokesGrid(cube: seq<seq<Image>>)
  {
    |cube| == 4 && forall s :: 0 <= s < 4 ==> |cube[s]| == 6
  }

  /** `np.asarray(level1_data).reshape(4, 6, Y, X)`. An empty stack has no
      second axis to read; images of different shapes do not form an array; any
      count other than 4 x 6 does not reshape. Otherwise image `6 s + w` of the
      stack becomes Stokes parameter `s` at wavelength position `w`. */
  function StokesCube(images: seq<Image>): (r: Result<seq<seq<Image>>>)
    ensures r.Ok? <==> |images| == 24 && Stackable(images)
    ensures |images| == 0 ==> r == Err(EmptyStack)
    ensures |images| > 0 && !Stackable(images) ==> r == Err(RaggedStack)
    ensures |images| > 0 && Stackable(images) && |images| != 24 ==> r == Err(ReshapeMismatch(|images|))
    ensures r.Ok? ==> IsStokesGrid(r.value)
    ensures r.Ok? ==>
      forall s, w {:trigger r.value[s][w]} :: 0 <= s < 4 && 0 <= w < 6 ==> r.value[s][w] == images[6 * s + w]
  {
    if |images| == 0 then Err(EmptyStack)
    else if !Stackable(images) then Err(RaggedStack)
    else if |images| != 24 then Err(ReshapeMismatch(|images|))
    else Ok([images[0..6], images[6..12], images[12..18], images[18..24]])
  }

  lemma {:induction false} FlattenLength(cube: seq<seq<Image>>)
    requires forall s :: 0 <= s < |cube| ==> |cube[s]| == 6
    ensures |Flatten(cube)| == 6 * |cube|
    ensures forall s, w :: 0 <= s < |cube| && 0 <= w < 6 ==> Flatten(cube)[6 * s + w] == cube[s][w]
  {
    if cube != [] {
      FlattenLength(cube[1..]);
      forall s, w | 0 <= s < |cube| && 0 <= w < 6
        ensures Flatten(cube)[6 * s + w] == cube[s][w]
      {
        if s > 0 {
          assert Flatten(cube)[6 * s + w] == Flatten(cube[1..])[6 * (s - 1) + w];
        }
      }
    }
  }

  /** Reshaping loses nothing: the cube read back row by row is the stack. */
  lemma {:induction false} StokesCubeFlattens(images: seq<Image>)
    requires StokesCube(images).Ok?
    ensures Flatten(StokesCube(images).value) == images
  {
    var cube := StokesCube(images).value;
    var a, b, c, d := images[0..6], images[6..12], images[12..18], images[18..24];
    assert cube == [a, b, c, d];
    assert [d][1..] == [] && [c, d][1..] == [d] && [b, c, d][1..] == [c, d] && [a, b, c, d][1..] == [b, c, d];
    assert Flatten([d]) == d;
    assert Flatten([c, d]) == c + d;
    assert Flatten([b, c, d]) == b + (c + d);
    assert Flatten(cube) == a + (b + (c + d));
    assert images == a + (b + (c + d));
  }

  /** And every 4 x 6 grid of same-shape images is the cube of its own stack. */
  lemma {:induction false} StokesCubeOfFlatten(cube: seq<seq<Image>>)
    requires IsStokesGrid(cube) && Stackable(Flatten(cube))
    ensures StokesCube(Flatten(cube)) == Ok(cube)
  {
    FlattenLength(cube);
    var r := StokesCube(Flatten(cube)).value;
    forall s | 0 <= s < 4 ensures r[s] == cube[s] {
      assert |r[s]| == |cube[s]|;
      forall w | 0 <= w < 6 ensures r[s][w] == cube[s][w] {
        assert r[s][w] == Flatten(cube)[6 * s + w];
      }
    }
    assert r == cube;
  }

  /** Every image of the cube has the shape of the first one: a (4, 6, Y, X) array. */
  lemma {:induction false} StokesCubeShape(images: seq<Image>)
    requires StokesCube(images).Ok?
    ensures var cube := StokesCube(images).value;
            forall s, w :: 0 <= s < 4 && 0 <= w < 6 ==>
              IsGrid(cube[s][w]) && Dims(cube[s][w]) == Dims(images[0])
  {
    var cube := StokesCube(images).value;
    forall s, w | 0 <= s < 4 && 0 <= w < 6
      ensures IsGrid(cube[s][w]) && Dims(cube[s][w]) == Dims(images[0])
    {
      assert cube[s][w] == images[6 * s + w];
    }
  }

  // ---------------------------------------------------------------------------
  // Level 2: the inversion cube
  // ---------------------------------------------------------------------------

  /** `fname.split('.')[-2]`: the segment naming the inversion parameter. */
  function ParamToken(f: string): Result<string>
  {
    var t := Split(f, '.');
    if |t| < 2 then Err(TooFewTokens(f)) else Ok(SecondToLast(t))
  }

  /** The parameter segment of every file, or the failure to find one. */
  function ParamIds(files: seq<string>): (ids: seq<Result<string>>)
    ensures |ids| == |files|
  {
    if files == [] then [] else ParamIds(DropLast(files)) + [ParamToken(Last(files))]
  }

  lemma {:induction false} ParamIdsAt(files: seq<string>, i: nat)
    requires i < |files|
    ensures ParamIds(files)[i] == ParamToken(files[i])
  {
    if i < |files| - 1 {
      ParamIdsAt(DropLast(files), i);
    }
  }

  predicate ParamWellFormed(files: seq<string>)
  {
    forall i :: 0 <= i < |files| ==> ParamToken(files[i]).Ok?
  }

  /** Which positions carry parameter `p`. */
  function IdMarks(ids: seq<Result<string>>, p: string): (m: seq<bool>)
    ensures |m| == |ids|
  {
    if ids == [] then [] else IdMarks(DropLast(ids), p) + [Last(ids) == Ok(p)]
  }

  /** Position `i` is marked exactly when its id is `p`. */
  lemma {:induction false} IdMarksAt(ids: seq<Result<string>>, p: string, i: nat)
    requires i < |ids|
    ensures IdMarks(ids, p)[i] <==> ids[i] == Ok(p)
  {
    if i < |ids| - 1 {
      IdMarksAt(DropLast(ids), p, i);
    }
  }

  lemma IdMarksAll(ids: seq<Result<string>>, p: string)
    ensures forall i :: 0 <= i < |ids| ==> (IdMarks(ids, p)[i] <==> ids[i] == Ok(p))
  {
    forall i | 0 <= i < |ids| ensures IdMarks(ids, p)[i] <==> ids[i] == Ok(p) {
      IdMarksAt(ids, p, i);
    }
  }

  /** The elements of `xs` whose id is `params[0]`, in order, then those whose id
      is `params[1]`, and so on. */
  function GroupBy<T>(xs: seq<T>, ids: seq<Result<string>>, params: seq<string>): (r: seq<T>)
    requires |ids| == |xs|
  {
    if params == [] then []
    else Select(xs, IdMarks(ids, params[0])) + GroupBy(xs, ids, params[1..])
  }

  /** The inversion files in the order of the cube: those of `params[0]` in file
      order, then those of `params[1]`, and so on. */
  function Grouped(files: seq<string>, params: seq<string>): seq<string>
  {
    GroupBy(files, ParamIds(files), params)
  }

  /** The files gathered so far, their pixel data in the same order, and the map
      loaded last (`tmp_map`). */
  datatype Level2Stack = Level2Stack(names: seq<string>, images: seq<Image>, last: Option<SolarMap>)

  /** The stack holds exactly what loading its files in order produces. */
  predicate LoadedWith(s: Level2Stack, load: string -> SolarMap)
  {
    s.images == ImagesOf(s.names, load) && s.last == LastLoaded(s.names, load)
  }

  /** `level2_data.append(file_data.data)`: load one more file. */
  method LoadInto(s: Level2Stack, f: string, load: string -> SolarMap) returns (t: Level2Stack)
    requires LoadedWith(s, load)
    ensures t.names == s.names + [f] && LoadedWith(t, load)
  {
    ImagesOfSnoc(s.names, f, load);
    var m := load(f);
    t := Level2Stack(s.names + [f], s.images + [m.data], Some(m));
  }

  /** One pass of the inner loop: every file whose parameter segment is `p` is
      appended, in file order. The first file without such a segment stops it. */
  method CollectParameter(files: seq<string>, p: string, load: string -> SolarMap, acc: Level2Stack)
    returns (r: Result<Level2Stack>)
    requires LoadedWith(acc, load)
    ensures r.Ok? <==> ParamWellFormed(files)
    ensures r.Err? ==> exists j :: 0 <= j < |files| && ParamToken(files[j]) == Err(r.error) &&
                        forall i :: 0 <= i < j ==> ParamToken(files[i]).Ok?
    ensures r.Ok? ==> r.value.names == acc.names + Select(files, IdMarks(ParamIds(files), p)) &&
                      LoadedWith(r.value, load)
  {
    var ids := ParamIds(files);
    r := CollectIds(files, ids, p, load, acc);
    if r.Ok? {
      ParamIdsOkUpTo(files, |files|);
    } else {
      var j :| 0 <= j < |files| && ids[j] == Err(r.error) && forall i :: 0 <= i < j ==> ids[i].Ok?;
      ParamIdsAt(files, j);
      ParamIdsOkUpTo(files, j);
    }
  }

  /** The inner loop over the files' parameter segments `ids`, read in order. */
  method CollectIds(files: seq<string>, ids: seq<Result<string>>, p: string, load: string -> SolarMap, acc: Level2Stack)
    returns (r: Result<Level2Stack>)
    requires |ids| == |files| && LoadedWith(acc, load)
    ensures r.Ok? <==> forall k :: 0 <= k < |ids| ==> ids[k].Ok?
    ensures r.Err? ==> exists j :: 0 <= j < |ids| && ids[j] == Err(r.error) &&
                        forall i :: 0 <= i < j ==> ids[i].Ok?
    ensures r.Ok? ==> r.value.names == acc.names + Select(files, IdMarks(ids, p)) &&
                      LoadedWith(r.value, load)
  {
    ghost var marks := IdMarks(ids, p);
    var s := acc;
    var i := 0;
    while i < |files|
      invariant 0 <= i <= |files|
      invariant forall k :: 0 <= k < i ==> ids[k].Ok?
      invariant s.names == acc.names + Select(files[..i], marks[..i])
      invariant LoadedWith(s, load)
    {
      if ids[i].Err? {
        return Err(ids[i].error);
      }
      ghost var sel := Select(files[..i], marks[..i]);
      CollectStep(files, ids, p, i);
      if ids[i].value == p {
        SnocAssociates(acc.names, sel, files[i]);
        s := LoadInto(s, files[i], load);
      }
      i := i + 1;
    }
    assert files[..i] == files && marks[..i] == marks;
    return Ok(s);
  }

  /** One more file in the inner loop: it is gathered exactly when its id is `p`. */
  lemma CollectStep(files: seq<string>, ids: seq<Result<string>>, p: string, i: nat)
    requires |ids| == |files| && i < |files|
    ensures var marks := IdMarks(ids, p);
            Select(files[..i + 1], marks[..i + 1]) ==
            Select(files[..i], marks[..i]) + (if ids[i] == Ok(p) then [files[i]] else [])
  {
    var marks := IdMarks(ids, p);
    SelectStep(files, marks, i);
    IdMarksAt(ids, p, i);
  }

  /** When the first `n` ids are all segments, so are the first `n` names' ones. */
  lemma ParamIdsOkUpTo(files: seq<string>, n: nat)
    requires n <= |files|
    requires forall k :: 0 <= k < n ==> ParamIds(files)[k].Ok?
    ensures forall k :: 0 <= k < n ==> ParamToken(files[k]).Ok?
  {
    forall k | 0 <= k < n ensures ParamToken(files[k]).Ok? {
      ParamIdsAt(files, k);
    }
  }

  /** The nested loop over `mag_params` and the inversion files. The first file
      whose name has no second-to-last segment stops it (on the first pass, unless
      there are no parameters at all); otherwise it gathers the files of each
      parameter in turn and loads their data in that order. */
  method AssembleParameters(files: seq<string>, params: seq<string>, load: string -> SolarMap)
    returns (r: Result<Level2Stack>)
    ensures r.Ok? <==> params == [] || ParamWellFormed(files)
    ensures r.Err? ==> exists j :: 0 <= j < |files| && ParamToken(files[j]) == Err(r.error) &&
                        forall i :: 0 <= i < j ==> ParamToken(files[i]).Ok?
    ensures r.Ok? ==> r.value.names == Grouped(files, params) && LoadedWith(r.value, load)
  {
    ghost var ids := ParamIds(files);
    var s := Level2Stack([], [], None);
    var j := 0;
    while j < |params|
      invariant 0 <= j <= |params|
      invariant j > 0 ==> ParamWellFormed(files)
      invariant s.names == GroupBy(files, ids, params[..j])
      invariant LoadedWith(s, load)
    {
      var next := CollectParameter(files, params[j], load, s);
      if next.Err? {
        return Err(next.error);
      }
      GroupByStep(files, ids, params, j);
      s := next.value;
      j := j + 1;
    }
    assert params[..j] == params;
    return Ok(s);
  }

  /** One more parameter: how the outer loop advances. */
  lemma GroupByStep<T>(xs: seq<T>, ids: seq<Result<string>>, params: seq<string>, j: nat)
    requires |ids| == |xs| && j < |params|
    ensures GroupBy(xs, ids, params[..j + 1]) == GroupBy(xs, ids, params[..j]) + Select(xs, IdMarks(ids, params[j]))
  {
    assert params[..j + 1] == params[..j] + [params[j]];
    GroupByAppend(xs, ids, params[..j], [params[j]]);
    assert GroupBy(xs, ids, [params[j]]) == Select(xs, IdMarks(ids, params[j])) + GroupBy(xs, ids, []);
  }

  /** Parameters are gathered independently: the cube of `ps + qs` is the cube
      of `ps` followed by the cube of `qs`. */
  lemma {:induction false} GroupByAppend<T>(xs: seq<T>, ids: seq<Result<string>>, ps: seq<string>, qs: seq<string>)
    requires |ids| == |xs|
    ensures GroupBy(xs, ids, ps + qs) == GroupBy(xs, ids, ps) + GroupBy(xs, ids, qs)
  {
    if ps == [] {
      assert ps + qs == qs;
    } else {
      assert (ps + qs)[0] == ps[0] && (ps + qs)[1..] == ps[1..] + qs;
      GroupByAppend(xs, ids, ps[1..], qs);
    }
  }

  lemma GroupByNone<T>(xs: seq<T>, ids: seq<Result<string>>, p: string)
    requires |ids| == |xs|
    requires forall i :: 0 <= i < |ids| ==> ids[i] != Ok(p)
    ensures GroupBy(xs, ids, [p]) == []
  {
    assert GroupBy(xs, ids, [p]) == Select(xs, IdMarks(ids, p)) + GroupBy(xs, ids, []);
    IdMarksAll(ids, p);
    SelectNone(xs, IdMarks(ids, p));
  }

  /** A parameter that no element carries contributes nothing. */
  lemma {:induction false} GroupByMissing<T>(xs: seq<T>, ids: seq<Result<string>>, ps: seq<string>, p: string, qs: seq<string>)
    requires |ids| == |xs|
    requires forall i :: 0 <= i < |ids| ==> ids[i] != Ok(p)
    ensures GroupBy(xs, ids, ps + [p] + qs) == GroupBy(xs, ids, ps + qs)
  {
    GroupByNone(xs, ids, p);
    GroupByAppend(xs, ids, ps + [p], qs);
    GroupByAppend(xs, ids, ps, [p]);
    GroupByAppend(xs, ids, ps, qs);
    var front := GroupBy(xs, ids, ps);
    assert front + [] == front;
  }

  /** A parameter that no file carries contributes no slice: the cube silently
      has fewer slices than there are parameters. */
  lemma MissingParameterContributesNothing(files: seq<string>, ps: seq<string>, p: string, qs: seq<string>)
    requires forall i :: 0 <= i < |files| ==> ParamToken(files[i]) != Ok(p)
    ensures Grouped(files, ps + [p] + qs) == Grouped(files, ps + qs)
  {
    var ids := ParamIds(files);
    forall i | 0 <= i < |ids| ensures ids[i] != Ok(p) {
      ParamIdsAt(files, i);
    }
    GroupByMissing(files, ids, ps, p, qs);
  }

  /** Some position holds `x` with id `p`. */
  ghost predicate CarriedBy<T>(xs: seq<T>, ids: seq<Result<string>>, x: T, p: string)
    requires |ids| == |xs|
  {
    exists i :: 0 <= i < |xs| && xs[i] == x && ids[i] == Ok(p)
  }

  lemma {:induction false} GroupByMembership<T>(xs: seq<T>, ids: seq<Result<string>>, params: seq<string>, x: T)
    requires |ids| == |xs|
    ensures x in GroupBy(xs, ids, params) <==> exists j :: 0 <= j < |params| && CarriedBy(xs, ids, x, params[j])
  {
    if params != [] {
      var p, rest := params[0], params[1..];
      var marks := IdMarks(ids, p);
      var first, tail := Select(xs, marks), GroupBy(xs, ids, rest);
      assert GroupBy(xs, ids, params) == first + tail;
      assert x in first <==> CarriedBy(xs, ids, x, p) by {
        SelectMembership(xs, marks, x);
        IdMarksAll(ids, p);
      }
      assert x in tail <==> exists j :: 0 <= j < |rest| && CarriedBy(xs, ids, x, rest[j]) by {
        GroupByMembership(xs, ids, rest, x);
      }
      assert (exists j :: 0 <= j < |params| && CarriedBy(xs, ids, x, params[j])) <==>
             CarriedBy(xs, ids, x, p) || exists j :: 0 <= j < |rest| && CarriedBy(xs, ids, x, rest[j])
      by {
        assert forall j :: 0 <= j < |rest| ==> rest[j] == params[j + 1];
        if exists j :: 0 <= j < |params| && CarriedBy(xs, ids, x, params[j]) {
          var j :| 0 <= j < |params| && CarriedBy(xs, ids, x, params[j]);
          if j > 0 {
            assert CarriedBy(xs, ids, x, rest[j - 1]);
          }
        }
      }
    }
  }

  /** A file is in the cube exactly when its parameter segment is one of the
      requested parameters. */
  lemma GroupedMembership(files: seq<string>, params: seq<string>, f: string)
    ensures f in Grouped(files, params) <==>
            f in files && exists p :: p in params && ParamToken(f) == Ok(p)
  {
    var ids := ParamIds(files);
    GroupByMembership(files, ids, params, f);
    forall p ensures CarriedBy(files, ids, f, p) <==> f in files && ParamToken(f) == Ok(p) {
      if f in files && ParamToken(f) == Ok(p) {
        var i :| 0 <= i < |files| && files[i] == f;
        ParamIdsAt(files, i);
      }
      if CarriedBy(files, ids, f, p) {
        var i :| 0 <= i < |files| && files[i] == f && ids[i] == Ok(p);
        ParamIdsAt(files, i);
      }
    }
  }

  /** The intended case: exactly one element per parameter, at `owner[j]`. Then
      the cube has one slice per parameter, slice `j` being the one of `params[j]`. */
  lemma {:induction false} GroupByOnePerParameter<T>(xs: seq<T>, ids: seq<Result<string>>, params: seq<string>, owner: seq<nat>)
    requires |ids| == |xs| && |owner| == |params|
    requires forall j :: 0 <= j < |params| ==> owner[j] < |xs| && ids[owner[j]] == Ok(params[j])
    requires forall j, i :: 0 <= j < |params| && 0 <= i < |xs| && ids[i] == Ok(params[j]) ==> i == owner[j]
    ensures |GroupBy(xs, ids, params)| == |params|
    ensures forall j :: 0 <= j < |params| ==> GroupBy(xs, ids, params)[j] == xs[owner[j]]
  {
    if params != [] {
      var rest, owners := params[1..], owner[1..];
      OnlyOwnerCarries(xs, ids, params, owner, 0);
      OwnedSlice(xs, ids, params[0], owner[0]);
      OwnersOfRest(xs, ids, params, owner);
      GroupByOnePerParameter(xs, ids, rest, owners);
      var tail := GroupBy(xs, ids, rest);
      assert GroupBy(xs, ids, params) == [xs[owner[0]]] + tail;
      forall j | 1 <= j < |params| ensures GroupBy(xs, ids, params)[j] == xs[owner[j]] {
        assert tail[j - 1] == xs[owners[j - 1]];
      }
    }
  }

  /** Parameter `j` is carried only by its owner. */
  lemma OnlyOwnerCarries<T>(xs: seq<T>, ids: seq<Result<string>>, params: seq<string>, owner: seq<nat>, j: nat)
    requires |ids| == |xs| && |owner| == |params| && j < |params|
    requires forall j, i :: 0 <= j < |params| && 0 <= i < |xs| && ids[i] == Ok(params[j]) ==> i == owner[j]
    ensures forall i :: 0 <= i < |xs| && ids[i] == Ok(params[j]) ==> i == owner[j]
  {
  }

  /** The ownership conditions carry over from `params` to `params[1..]`. */
  lemma OwnersOfRest<T>(xs: seq<T>, ids: seq<Result<string>>, params: seq<string>, owner: seq<nat>)
    requires |ids| == |xs| && |owner| == |params| && params != []
    requires forall j :: 0 <= j < |params| ==> owner[j] < |xs| && ids[owner[j]] == Ok(params[j])
    requires forall j, i :: 0 <= j < |params| && 0 <= i < |xs| && ids[i] == Ok(params[j]) ==> i == owner[j]
    ensures forall j :: 0 <= j < |params[1..]| ==> owner[1..][j] < |xs| && ids[owner[1..][j]] == Ok(params[1..][j])
    ensures forall j, i :: 0 <= j < |params[1..]| && 0 <= i < |xs| && ids[i] == Ok(params[1..][j]) ==> i == owner[1..][j]
  {
    forall j, i | 0 <= j < |params[1..]| && 0 <= i < |xs| && ids[i] == Ok(params[1..][j])
      ensures i == owner[1..][j]
    {
      OnlyOwnerCarries(xs, ids, params, owner, j + 1);
    }
  }

  /** A parameter carried by exactly one element gathers just that element. */
  lemma OwnedSlice<T>(xs: seq<T>, ids: seq<Result<string>>, p: string, o: nat)
    requires |ids| == |xs| && o < |xs| && ids[o] == Ok(p)
    requires forall i :: 0 <= i < |xs| && ids[i] == Ok(p) ==> i == o
    ensures Select(xs, IdMarks(ids, p)) == [xs[o]]
  {
    IdMarksAll(ids, p);
    SelectSingle(xs, IdMarks(ids, p), o);
  }

  /** For the files: when each parameter is carried by exactly one file, slice
      `j` of the cube is the file of `params[j]`, whatever the listing order. */
  lemma OneFilePerParameter(files: seq<string>, params: seq<string>, owner: seq<nat>)
    requires |owner| == |params|
    requires forall j :: 0 <= j < |params| ==> owner[j] < |files| && ParamToken(files[owner[j]]) == Ok(params[j])
    requires forall j, i :: 0 <= j < |params| && 0 <= i < |files| && ParamToken(files[i]) == Ok(params[j]) ==> i == owner[j]
    ensures |Grouped(files, params)| == |params|
    ensures forall j :: 0 <= j < |params| ==> Grouped(files, params)[j] == files[owner[j]]
  {
    var ids := ParamIds(files);
    forall i | 0 <= i < |files| ensures ids[i] == ParamToken(files[i]) {
      ParamIdsAt(files, i);
    }
    GroupByOnePerParameter(files, ids, params, owner);
  }
}
