/** The Hinode SP loader (`get_SP_data`): the `.fits` files of a scan directory,
    their 3-D data filled slot by slot into a preallocated stack and transposed to
    (stokes, wavelength, y, x), the inversion parameters gathered in the order the
    caller asks for, and the two coordinate systems. Files are read through an
    `open` function standing for `astropy.io.fits.open`. */
module HinodeScan {
  import opened Outcomes
  import opened Text
  import opened Selection
  import opened Fits
  import opened Coordinates

  /** A FITS file as the decoder hands it over: the primary HDU's data and
      header, and the 2-D data of its named extensions. */
  datatype FitsFile = FitsFile(data: Block, header: Header, extensions: map<string, Image>)

  /** A 4-D array, `cube[a][b][c][d]`. */
  type Cube = seq<seq<seq<seq<real>>>>

  // ---------------------------------------------------------------------------
  // The scan file list
  // ---------------------------------------------------------------------------

  /** `os.path.join(dir, name)`: an absolute `name` replaces `dir`; otherwise a
      `/` separates them unless `dir` is empty or already ends with one. */
  function JoinPath(dir: string, name: string): (p: string)
    ensures EndsWith(p, name)
  {
    if |name| > 0 && name[0] == '/' then name
    else if dir == [] || dir[|dir| - 1] == '/' then
      assert (dir + name)[|dir|..] == name;
      dir + name
    else
      assert (dir + "/" + name)[|dir| + 1..] == name;
      dir + "/" + name
  }

  /** `user_dir + 'Level1/' + user_date`: the scan directory. */
  function Level1Dir(userDir: string, date: string): (d: string)
    ensures userDir <= d && EndsWith(d, date)
  {
    assert (userDir + "Level1/" + date)[|userDir + "Level1/"|..] == date;
    userDir + "Level1/" + date
  }

  /** `user_dir + '/Level2/' + user_date + '.fits'`: the inversion file. */
  function Level2Path(userDir: string, date: string): (p: string)
    ensures userDir <= p && EndsWith(p, ".fits")
  {
    assert (userDir + "/Level2/" + date + ".fits")[|userDir + "/Level2/" + date|..] == ".fits";
    userDir + "/Level2/" + date + ".fits"
  }

  /** Which names of the listing end in `.fits`, position by position. */
  function FitsMarks(listing: seq<string>): (m: seq<bool>)
    ensures |m| == |listing|
  {
    if listing == [] then [] else FitsMarks(DropLast(listing)) + [EndsWith(Last(listing), ".fits")]
  }

  lemma {:induction false} FitsMarksAt(listing: seq<string>, i: nat)
    requires i < |listing|
    ensures FitsMarks(listing)[i] == EndsWith(listing[i], ".fits")
  {
    if i < |listing| - 1 {
      FitsMarksAt(DropLast(listing), i);
    }
  }

  /** `os.path.join(dir, name)` for every name. */
  function Joined(dir: string, names: seq<string>): (r: seq<string>)
    ensures |r| == |names|
  {
    if names == [] then [] else Joined(dir, DropLast(names)) + [JoinPath(dir, Last(names))]
  }

  lemma {:induction false} JoinedAt(dir: string, names: seq<string>, k: nat)
    requires k < |names|
    ensures Joined(dir, names)[k] == JoinPath(dir, names[k])
  {
    if k < |names| - 1 {
      JoinedAt(dir, DropLast(names), k);
    }
  }

  lemma JoinedSnoc(dir: string, names: seq<string>, name: string)
    ensures Joined(dir, names + [name]) == Joined(dir, names) + [JoinPath(dir, name)]
  {
    assert DropLast(names + [name]) == names;
  }

  /** The paths of the `.fits` entries of the sorted listing, in listing order. */
  function ScanFiles(dir: string, listing: seq<string>): seq<string>
  {
    Joined(dir, Select(listing, FitsMarks(listing)))
  }

  /** The listing loop: skip every name that does not end in `.fits`, join the
      others to the directory. */
  method ListScanFiles(dir: string, listing: seq<string>) returns (files: seq<string>)
    ensures files == ScanFiles(dir, listing)
  {
    ghost var marks := FitsMarks(listing);
    files := [];
    for i := 0 to |listing|
      invariant files == Joined(dir, Select(listing[..i], marks[..i]))
    {
      ghost var before := Select(listing[..i], marks[..i]);
      SelectStep(listing, marks, i);
      FitsMarksAt(listing, i);
      if EndsWith(listing[i], ".fits") {
        JoinedSnoc(dir, before, listing[i]);
        files := files + [JoinPath(dir, listing[i])];
      } else {
        assert before + [] == before;
      }
    }
    assert listing[..|listing|] == listing && marks[..|listing|] == marks;
  }

  /** The scan files are the `.fits` entries, joined to the directory, in listing
      order and each once; every one of them is a `.fits` path; a listing without
      `.fits` entries gives none. */
  lemma ScanFilesMeaning(dir: string, listing: seq<string>)
    ensures var files := ScanFiles(dir, listing);
            var idx := MarkedIndices(FitsMarks(listing));
            && |files| == |idx|
            && StrictlyIncreasing(idx)
            && (forall k :: 0 <= k < |idx| ==> files[k] == JoinPath(dir, listing[idx[k]]))
            && (forall i :: 0 <= i < |listing| ==> (i in idx <==> EndsWith(listing[i], ".fits")))
            && (forall k :: 0 <= k < |files| ==> EndsWith(files[k], ".fits"))
  {
    var marks := FitsMarks(listing);
    var sel := Select(listing, marks);
    var files := ScanFiles(dir, listing);
    var idx := MarkedIndices(marks);
    SelectIsSubsequence(listing, marks);
    forall i | 0 <= i < |listing| ensures marks[i] == EndsWith(listing[i], ".fits") {
      FitsMarksAt(listing, i);
    }
    forall k | 0 <= k < |idx| ensures files[k] == JoinPath(dir, listing[idx[k]]) {
      JoinedAt(dir, sel, k);
    }
    forall k | 0 <= k < |files| ensures EndsWith(files[k], ".fits") {
      EndsWithChain(files[k], listing[idx[k]], ".fits");
    }
  }

  /** A suffix of a suffix is a suffix. */
  lemma EndsWithChain(s: string, t: string, u: string)
    requires EndsWith(s, t) && EndsWith(t, u)
    ensures EndsWith(s, u)
  {
    assert s[|s| - |u|..] == t[|t| - |u|..];
  }

  // ---------------------------------------------------------------------------
  // The scan stack and its transpose
  // ---------------------------------------------------------------------------

  /** `np.zeros((a, b, c))`. */
  function Zeros(a: nat, b: nat, c: nat): (z: Block)
    ensures IsBox(z, a, b, c)
  {
    seq(a, _ => seq(b, _ => seq(c, _ => 0.0)))
  }

  /** `data.shape` of a 3-D array; a ragged block has no shape. */
  function Shape(block: Block): (r: Option<(nat, nat, nat)>)
    ensures r.Some? ==> IsBox(block, r.value.0, r.value.1, r.value.2)
    ensures (exists a, b, c :: IsBox(block, a, b, c)) ==> r.Some?
  {
    var d := BlockDims(block);
    if IsBox(block, d.0, d.1, d.2) then Some(d) else None
  }

  /** `stack.shape == (len(stack), ns, ny, nw)`. */
  predicate IsStack(stack: seq<Block>, ns: nat, ny: nat, nw: nat)
  {
    && (forall x :: 0 <= x < |stack| ==> |stack[x]| == ns)
    && (forall x, s :: 0 <= x < |stack| && 0 <= s < ns ==> |stack[x][s]| == ny)
    && (forall x, s, y :: 0 <= x < |stack| && 0 <= s < ns && 0 <= y < ny ==> |stack[x][s][y]| == nw)
  }

  /** A stack is made of slots of one box shape. */
  lemma StackOfBoxes(stack: seq<Block>, ns: nat, ny: nat, nw: nat)
    requires forall x :: 0 <= x < |stack| ==> IsBox(stack[x], ns, ny, nw)
    ensures IsStack(stack, ns, ny, nw)
  {
  }

  /** `cube.shape == (a, b, c, d)`. */
  predicate IsCube(cube: Cube, a: nat, b: nat, c: nat, d: nat)
  {
    && |cube| == a
    && (forall i :: 0 <= i < a ==> |cube[i]| == b)
    && (forall i, j :: 0 <= i < a && 0 <= j < b ==> |cube[i][j]| == c)
    && (forall i, j, k :: 0 <= i < a && 0 <= j < b && 0 <= k < c ==> |cube[i][j][k]| == d)
  }

  /** `stack.transpose(1, 3, 2, 0)` of a stack of shape (nx, ns, ny, nw): the
      result has shape (ns, nw, ny, nx) and element [s][w][y][x] is the stack's
      element [x][s][y][w]. */
  function Transposed(stack: seq<Block>, ns: nat, ny: nat, nw: nat): (r: Cube)
    requires IsStack(stack, ns, ny, nw)
    ensures IsCube(r, ns, nw, ny, |stack|)
    ensures forall s, w, y, x :: 0 <= s < ns && 0 <= w < nw && 0 <= y < ny && 0 <= x < |stack| ==>
              r[s][w][y][x] == stack[x][s][y][w]
  {
    seq(ns, s requires 0 <= s < ns =>
      seq(nw, w requires 0 <= w < nw =>
        seq(ny, y requires 0 <= y < ny =>
          seq(|stack|, x requires 0 <= x < |stack| => stack[x][s][y][w]))))
  }

  /** The transpose back, `cube.transpose(3, 0, 2, 1)`: from shape (ns, nw, ny, nx)
      to (nx, ns, ny, nw). */
  function Untransposed(cube: Cube, ns: nat, nw: nat, ny: nat, nx: nat): (r: seq<Block>)
    requires IsCube(cube, ns, nw, ny, nx)
    ensures |r| == nx && IsStack(r, ns, ny, nw)
  {
    seq(nx, x requires 0 <= x < nx =>
      seq(ns, s requires 0 <= s < ns =>
        seq(ny, y requires 0 <= y < ny =>
          seq(nw, w requires 0 <= w < nw => cube[s][w][y][x]))))
  }

  /** The transpose loses nothing: transposing back gives the stack again. */
  lemma TransposeRoundTrip(stack: seq<Block>, ns: nat, ny: nat, nw: nat)
    requires IsStack(stack, ns, ny, nw)
    ensures Untransposed(Transposed(stack, ns, ny, nw), ns, nw, ny, |stack|) == stack
  {
    var cube := Transposed(stack, ns, ny, nw);
    var back := Untransposed(cube, ns, nw, ny, |stack|);
    forall x | 0 <= x < |stack| ensures back[x] == stack[x] {
      forall s | 0 <= s < ns ensures back[x][s] == stack[x][s] {
        forall y | 0 <= y < ny ensures back[x][s][y] == stack[x][s][y] {
          assert back[x][s][y] == seq(nw, w requires 0 <= w < nw => cube[s][w][y][x]);
        }
      }
    }
  }

  /** The primary data of every file, in file order. */
  function Blocks(files: seq<string>, open: string -> FitsFile): (r: seq<Block>)
    ensures |r| == |files|
    ensures forall ix :: 0 <= ix < |files| ==> r[ix] == open(files[ix]).data
  {
    seq(|files|, ix requires 0 <= ix < |files| => open(files[ix]).data)
  }

  /** `head_all`: the primary header of every file, in file order. */
  function Headers(files: seq<string>, open: string -> FitsFile): (r: seq<Header>)
    ensures |r| == |files|
    ensures forall ix :: 0 <= ix < |files| ==> r[ix] == open(files[ix]).header
  {
    seq(|files|, ix requires 0 <= ix < |files| => open(files[ix]).header)
  }

  /** `xcen_a` / `ycen_a`: the keyword's value in every file's primary header. */
  function Pointing(files: seq<string>, open: string -> FitsFile, key: string): (r: seq<Value>)
    requires forall ix :: 0 <= ix < |files| ==> key in open(files[ix]).header
    ensures |r| == |files|
    ensures forall ix :: 0 <= ix < |files| ==> r[ix] == open(files[ix]).header[key]
  {
    seq(|files|, ix requires 0 <= ix < |files| => open(files[ix]).header[key])
  }

  /** `Nstokes, Ny, Nwav = SP_level1[0].data.shape`: the slot shape fixed by the
      first scan file. */
  function SlotShape(files: seq<string>, open: string -> FitsFile): (r: Option<(nat, nat, nat)>)
    ensures r.Some? ==> files != [] && IsBox(open(files[0]).data, r.value.0, r.value.1, r.value.2)
    ensures files != [] && (exists a, b, c :: IsBox(open(files[0]).data, a, b, c)) ==> r.Some?
  {
    if files == [] then None else Shape(open(files[0]).data)
  }

  /** What one pass of the scan loop does with file `ix`: its data must fit a slot
      of shape (ns, ny, nw), then its header must carry `XCEN`, then `YCEN`. */
  function Admit(f: FitsFile, ix: nat, ns: nat, ny: nat, nw: nat): (r: Result<(Value, Value)>)
    ensures r.Ok? <==> IsBox(f.data, ns, ny, nw) && "XCEN" in f.header && "YCEN" in f.header
    ensures r.Ok? ==> r.value == (f.header["XCEN"], f.header["YCEN"])
  {
    if !IsBox(f.data, ns, ny, nw) then Err(ShapeMismatch(ix))
    else if "XCEN" !in f.header then Err(MissingKey("XCEN"))
    else if "YCEN" !in f.header then Err(MissingKey("YCEN"))
    else Ok((f.header["XCEN"], f.header["YCEN"]))
  }

  /** The scan loop runs to its end: there is a first file of some shape, and
      every file fits that shape and carries its pointing. */
  predicate ScanOk(files: seq<string>, open: string -> FitsFile)
  {
    && SlotShape(files, open).Some?
    && var (ns, ny, nw) := SlotShape(files, open).value;
       forall ix :: 0 <= ix < |files| ==>
         IsBox(open(files[ix]).data, ns, ny, nw) && "XCEN" in open(files[ix]).header && "YCEN" in open(files[ix]).header
  }

  /** The transposed scan cube of a scan that loads. */
  function ScanCube(files: seq<string>, open: string -> FitsFile): (r: Cube)
    requires ScanOk(files, open)
    ensures var (ns, ny, nw) := SlotShape(files, open).value; IsCube(r, ns, nw, ny, |files|)
  {
    var (ns, ny, nw) := SlotShape(files, open).value;
    StackOfBoxes(Blocks(files, open), ns, ny, nw);
    Transposed(Blocks(files, open), ns, ny, nw)
  }

  /** The scan: its transposed data cube, the headers and the pointing lists. */
  datatype ScanStack = ScanStack(cube: Cube, headers: seq<Header>, xcen: seq<Value>, ycen: seq<Value>)

  /** The scan loop. The first file fixes the slot shape (ns, ny, nw); a stack of
      that many zero slots is filled slot by slot, and then transposed. An empty
      file list fails at `level1_files[0]`; a file whose data does not fit its slot,
      or whose header lacks `XCEN` or `YCEN`, stops the loop. */
  method ReadScan(files: seq<string>, open: string -> FitsFile) returns (r: Result<ScanStack>)
    ensures files == [] ==> r == Err(NoScanFiles)
    ensures files != [] && SlotShape(files, open).None? ==> r == Err(ShapeMismatch(0))
    ensures r.Ok? <==> ScanOk(files, open)
    ensures r.Err? && SlotShape(files, open).Some? ==>
              var (ns, ny, nw) := SlotShape(files, open).value;
              exists j :: 0 <= j < |files| && Admit(open(files[j]), j, ns, ny, nw) == Err(r.error) &&
                forall ix :: 0 <= ix < j ==> Admit(open(files[ix]), ix, ns, ny, nw).Ok?
    ensures r.Ok? ==> r.value == ScanStack(ScanCube(files, open), Headers(files, open),
                                           Pointing(files, open, "XCEN"), Pointing(files, open, "YCEN"))
  {
    if files == [] {
      return Err(NoScanFiles);
    }
    var shape := Shape(open(files[0]).data);
    if shape.None? {
      return Err(ShapeMismatch(0));
    }
    var (ns, ny, nw) := shape.value;
    var filled :- FillSlots(files, open, ns, ny, nw);
    var (stack, headers, xcen, ycen) := filled;
    ScanLoaded(files, open, stack, headers, xcen, ycen);
    return Ok(ScanStack(Transposed(stack, ns, ny, nw), headers, xcen, ycen));
  }

  /** The loop of the scan: `level1_data[ix] = data` into a zero stack of shape
      (len(files), ns, ny, nw), then `head_all`, `xcen_a` and `ycen_a` appended.
      It stops at the first file that `Admit` rejects. */
  method FillSlots(files: seq<string>, open: string -> FitsFile, ns: nat, ny: nat, nw: nat)
    returns (r: Result<(seq<Block>, seq<Header>, seq<Value>, seq<Value>)>)
    ensures r.Ok? <==> forall ix :: 0 <= ix < |files| ==> Admit(open(files[ix]), ix, ns, ny, nw).Ok?
    ensures r.Err? ==> exists j :: 0 <= j < |files| && Admit(open(files[j]), j, ns, ny, nw) == Err(r.error) &&
                         forall ix :: 0 <= ix < j ==> Admit(open(files[ix]), ix, ns, ny, nw).Ok?
    ensures r.Ok? ==>
              var (stack, headers, xcen, ycen) := r.value;
              && |stack| == |headers| == |xcen| == |ycen| == |files|
              && forall k :: 0 <= k < |files| ==>
                   stack[k] == open(files[k]).data && headers[k] == open(files[k]).header &&
                   Admit(open(files[k]), k, ns, ny, nw) == Ok((xcen[k], ycen[k]))
  {
    var level1 := new Block[|files|](_ => Zeros(ns, ny, nw));
    var headers: seq<Header> := [];
    var xcen: seq<Value> := [];
    var ycen: seq<Value> := [];
    for ix := 0 to |files|
      invariant |headers| == |xcen| == |ycen| == ix
      invariant forall k :: 0 <= k < ix ==> level1[k] == open(files[k]).data && headers[k] == open(files[k]).header
      invariant forall k :: 0 <= k < ix ==> Admit(open(files[k]), k, ns, ny, nw) == Ok((xcen[k], ycen[k]))
    {
      var f := open(files[ix]);
      if !IsBox(f.data, ns, ny, nw) {
        return Err(ShapeMismatch(ix));
      }
      level1[ix] := f.data;
      headers := headers + [f.header];
      var x := Lookup(f.header, "XCEN");
      if x.Err? {
        return Err(x.error);
      }
      xcen := xcen + [x.value];
      var y := Lookup(f.header, "YCEN");
      if y.Err? {
        return Err(y.error);
      }
      ycen := ycen + [y.value];
    }
    return Ok((level1[..], headers, xcen, ycen));
  }

  /** The lists the completed scan loop holds are the spec's. */
  lemma ScanLoaded(files: seq<string>, open: string -> FitsFile, stack: seq<Block>, headers: seq<Header>,
                   xcen: seq<Value>, ycen: seq<Value>)
    requires SlotShape(files, open).Some?
    requires |stack| == |headers| == |xcen| == |ycen| == |files|
    requires var (ns, ny, nw) := SlotShape(files, open).value;
             forall k :: 0 <= k < |files| ==>
               stack[k] == open(files[k]).data && headers[k] == open(files[k]).header &&
               Admit(open(files[k]), k, ns, ny, nw) == Ok((xcen[k], ycen[k]))
    ensures ScanOk(files, open)
    ensures var (ns, ny, nw) := SlotShape(files, open).value;
            IsStack(stack, ns, ny, nw) && ScanCube(files, open) == Transposed(stack, ns, ny, nw)
    ensures headers == Headers(files, open)
    ensures xcen == Pointing(files, open, "XCEN") && ycen == Pointing(files, open, "YCEN")
  {
    var (ns, ny, nw) := SlotShape(files, open).value;
    assert stack == Blocks(files, open);
    StackOfBoxes(stack, ns, ny, nw);
  }

  /** What the scan cube holds: slot `x` of the stack is the data of scan file
      `x`, so element [s][w][y][x] of the cube is element [s][y][w] of file `x`'s
      data, and the cube has shape (ns, nw, ny, number of files). */
  lemma ScanCubeHoldsFiles(files: seq<string>, open: string -> FitsFile)
    requires ScanOk(files, open)
    ensures var (ns, ny, nw) := SlotShape(files, open).value;
            var cube := ScanCube(files, open);
            && IsCube(cube, ns, nw, ny, |files|)
            && forall s, w, y, x :: 0 <= s < ns && 0 <= w < nw && 0 <= y < ny && 0 <= x < |files| ==>
                 cube[s][w][y][x] == open(files[x]).data[s][y][w]
  {
    var (ns, ny, nw) := SlotShape(files, open).value;
    StackOfBoxes(Blocks(files, open), ns, ny, nw);
  }

  // ---------------------------------------------------------------------------
  // The inversion parameters
  // ---------------------------------------------------------------------------

  /** The extension that fixes the slice shape, whether or not it is requested. */
  const ShapeExtension: string := "Field_Strength"

  /** The default `magnetic_params`. */
  const DefaultParameters: seq<string> := ["Field_Strength", "Field_Inclination", "Field_Azimuth"]

  /** `np.zeros((ny, nx))`. */
  function ZeroImage(ny: nat, nx: nat): (z: Image)
    ensures IsGrid(z) && |z| == ny && forall y :: 0 <= y < ny ==> |z[y]| == nx
  {
    seq(ny, _ => seq(nx, _ => 0.0))
  }

  /** What pass `i` of the parameter loop does with parameter `p`: the extension
      must exist, and its data must fill a slice of shape `dims`. */
  function Slice(ext: map<string, Image>, p: string, i: nat, dims: (nat, nat)): (r: Result<Image>)
    ensures r.Ok? <==> p in ext && IsGrid(ext[p]) && Dims(ext[p]) == dims
    ensures r.Ok? ==> r.value == ext[p]
  {
    if p !in ext then Err(MissingExtension(p))
    else if !(IsGrid(ext[p]) && Dims(ext[p]) == dims) then Err(ShapeMismatch(i))
    else Ok(ext[p])
  }

  /** `Ny, Nx = SP_level2['Field_Strength'].data.shape`. */
  function SliceShape(level2: FitsFile): Option<(nat, nat)>
  {
    if ShapeExtension in level2.extensions then Some(Dims(level2.extensions[ShapeExtension])) else None
  }

  /** The parameter loop runs to its end. */
  predicate ParametersOk(level2: FitsFile, params: seq<string>)
  {
    && SliceShape(level2).Some?
    && forall i :: 0 <= i < |params| ==> Slice(level2.extensions, params[i], i, SliceShape(level2).value).Ok?
  }

  /** `level2_data`: slice `i` is the extension named `params[i]`, and every slice
      has the field-strength extension's shape. */
  function Slices(level2: FitsFile, params: seq<string>): (r: seq<Image>)
    requires ParametersOk(level2, params)
    ensures |r| == |params|
    ensures forall i :: 0 <= i < |params| ==>
              r[i] == level2.extensions[params[i]] && IsGrid(r[i]) && Dims(r[i]) == SliceShape(level2).value
  {
    seq(|params|, i requires 0 <= i < |params| =>
      assert Slice(level2.extensions, params[i], i, SliceShape(level2).value).Ok?;
      level2.extensions[params[i]])
  }

  /** The parameter loop: slice `i` of a zero stack of `len(params)` slices, shaped
      like the field-strength extension, is overwritten with the extension named
      `params[i]`. A missing field-strength extension fails before the loop; a
      missing or differently shaped parameter extension stops it. */
  method ReadParameters(level2: FitsFile, params: seq<string>) returns (r: Result<seq<Image>>)
    ensures SliceShape(level2).None? ==> r == Err(MissingExtension(ShapeExtension))
    ensures r.Ok? <==> ParametersOk(level2, params)
    ensures r.Err? && SliceShape(level2).Some? ==>
              exists j :: 0 <= j < |params| && Slice(level2.extensions, params[j], j, SliceShape(level2).value) == Err(r.error) &&
                forall i :: 0 <= i < j ==> Slice(level2.extensions, params[i], i, SliceShape(level2).value).Ok?
    ensures r.Ok? ==> r.value == Slices(level2, params)
  {
    var ext := level2.extensions;
    if ShapeExtension !in ext {
      return Err(MissingExtension(ShapeExtension));
    }
    var (ny, nx) := Dims(ext[ShapeExtension]);
    var level2Data := new Image[|params|](_ => ZeroImage(ny, nx));
    for i := 0 to |params|
      invariant forall k :: 0 <= k < i ==> Slice(ext, params[k], k, (ny, nx)) == Ok(level2Data[k])
    {
      var p := params[i];
      if p !in ext {
        return Err(MissingExtension(p));
      }
      if !(IsGrid(ext[p]) && Dims(ext[p]) == (ny, nx)) {
        return Err(ShapeMismatch(i));
      }
      level2Data[i] := ext[p];
    }
    assert ParametersOk(level2, params);
    return Ok(level2Data[..]);
  }

  /** Parameters are read independently: the cube of `ps + qs` loads exactly when
      the cubes of `ps` and of `qs` do, and it is the one followed by the other. */
  lemma SlicesAppend(level2: FitsFile, ps: seq<string>, qs: seq<string>)
    ensures ParametersOk(level2, ps + qs) <==> ParametersOk(level2, ps) && ParametersOk(level2, qs)
    ensures ParametersOk(level2, ps + qs) ==>
              Slices(level2, ps + qs) == Slices(level2, ps) + Slices(level2, qs)
  {
    if SliceShape(level2).Some? {
      var d := SliceShape(level2).value;
      var ext := level2.extensions;
      var pq := ps + qs;
      if ParametersOk(level2, ps) && ParametersOk(level2, qs) {
        forall i | 0 <= i < |pq| ensures Slice(ext, pq[i], i, d).Ok? {
          if i < |ps| {
            assert pq[i] == ps[i] && Slice(ext, ps[i], i, d).Ok?;
          } else {
            assert pq[i] == qs[i - |ps|] && Slice(ext, qs[i - |ps|], i - |ps|, d).Ok?;
          }
        }
      }
      if ParametersOk(level2, pq) {
        forall i | 0 <= i < |ps| ensures Slice(ext, ps[i], i, d).Ok? {
          assert pq[i] == ps[i] && Slice(ext, pq[i], i, d).Ok?;
        }
        forall i | 0 <= i < |qs| ensures Slice(ext, qs[i], i, d).Ok? {
          assert pq[i + |ps|] == qs[i] && Slice(ext, pq[i + |ps|], i + |ps|, d).Ok?;
        }
      }
    }
  }

  // ---------------------------------------------------------------------------
  // The whole loader
  // ---------------------------------------------------------------------------

  /** Everything `get_SP_data` returns. */
  datatype SpObservation = SpObservation(headers: seq<Header>, head1: Header, head2: Header,
                                         level1: Cube, level2: seq<Image>, wcs: SpWcs)

  /** `get_SP_data` with its defaults made explicit: the sorted listing of the scan
      directory, the file reader, and the median of a list of header values. The
      steps run in the source's order: list, read the scan, read the inversion
      file, build the coordinate systems; the first failure is the result.
      `params` is `magnetic_params`, which defaults to `DefaultParameters`. */
  method LoadSp(userDir: string, date: string, listing: seq<string>, open: string -> FitsFile,
                median: seq<Value> -> Value, params: seq<string> := DefaultParameters)
    returns (r: Result<SpObservation>)
    ensures ScanFiles(Level1Dir(userDir, date), listing) == [] ==> r == Err(NoScanFiles)
    ensures var files := ScanFiles(Level1Dir(userDir, date), listing);
            var level2 := open(Level2Path(userDir, date));
            r.Ok? <==>
              ScanOk(files, open) && ParametersOk(level2, params) &&
              BuildSpWcs(open(files[0]).header, level2.header,
                         median(Pointing(files, open, "XCEN")), median(Pointing(files, open, "YCEN"))).Ok?
    ensures var files := ScanFiles(Level1Dir(userDir, date), listing);
            var level2 := open(Level2Path(userDir, date));
            r.Ok? ==>
              && ScanOk(files, open) && ParametersOk(level2, params)
              && r.value.headers == Headers(files, open)
              && r.value.head1 == open(files[0]).header
              && r.value.head2 == level2.header
              && r.value.level1 == ScanCube(files, open)
              && r.value.level2 == Slices(level2, params)
              && BuildSpWcs(r.value.head1, r.value.head2,
                            median(Pointing(files, open, "XCEN")), median(Pointing(files, open, "YCEN"))) == Ok(r.value.wcs)
  {
    var files := ListScanFiles(Level1Dir(userDir, date), listing);
    var scan :- ReadScan(files, open);
    var level2 := open(Level2Path(userDir, date));
    var slices :- ReadParameters(level2, params);
    var head1 := open(files[0]).header;
    var wcs :- BuildSpWcs(head1, level2.header, median(scan.xcen), median(scan.ycen));
    return Ok(SpObservation(scan.headers, head1, level2.header, scan.cube, slices, wcs));
  }
}
