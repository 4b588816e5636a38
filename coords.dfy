/** World-coordinate descriptions of the data cubes. HMI cubes reuse the header of a
    sunpy map and add a third (and fourth) axis to it; Hinode SP cubes get their
    coordinate system built axis by axis from two FITS primary headers. */
module Coordinates {
  import opened Outcomes
  import opened Fits

  // ---------------------------------------------------------------------------
  // HMI: extending a map header
  // ---------------------------------------------------------------------------

  /** Keywords written over the map header of the Stokes cube (data axes stokes,
      wavelength, y, x): a wavelength axis 3 and a Stokes axis 4. The spacing is
      0.0688 Angstrom and the reference value the Fe I 6173.345 Angstrom line,
      both in metres. */
  const StokesCubeAxes: Header := map[
    "WCSAXES" := Int(4),
    "CRPIX3" := Real(3.5), "CDELT3" := Real(0.00000000000688), "CUNIT3" := Str("m"),
    "CTYPE3" := Str("WAVE"), "CRVAL3" := Real(0.0000006173345),
    "CRPIX4" := Int(0), "CDELT4" := Int(1), "CUNIT4" := Str(""),
    "CTYPE4" := Str("STOKES"), "CRVAL4" := Int(0)]

  /** Keywords written over the map header of the inversion cube (data axes
      parameter, y, x): a parameter axis 3. */
  const ParameterCubeAxes: Header := map[
    "WCSAXES" := Int(3),
    "CRPIX3" := Int(0), "CDELT3" := Int(1), "CUNIT3" := Str(""),
    "CTYPE3" := Str("Parameter"), "CRVAL3" := Int(0)]

  /** A keyword that describes one of the two celestial axes: its name ends in the
      axis number 1 or 2 (CRPIX1, CDELT2, PC1_2, ...). */
  predicate IsSpatialKey(key: string)
  {
    |key| > 0 && (key[|key| - 1] == '1' || key[|key| - 1] == '2')
  }

  /** The header `base` with every keyword of `extra` assigned over it: the keys of
      both, the values of `extra` where it has them and of `base` elsewhere. */
  predicate OverriddenBy(h: Header, base: Header, extra: Header)
  {
    h.Keys == base.Keys + extra.Keys &&
    (forall k :: k in extra ==> h[k] == extra[k]) &&
    (forall k :: k in base && k !in extra ==> h[k] == base[k])
  }

  /** The Stokes-cube header: `wcs_header` of the last Stokes map with the
      wavelength and Stokes axes assigned keyword by keyword. */
  method ExtendStokesHeader(base: Header) returns (h: Header)
    ensures OverriddenBy(h, base, StokesCubeAxes)
  {
    h := base;
    h := h["WCSAXES" := Int(4)];
    h := h["CRPIX3" := Real(3.5)];
    h := h["CDELT3" := Real(0.00000000000688)];
    h := h["CUNIT3" := Str("m")];
    h := h["CTYPE3" := Str("WAVE")];
    h := h["CRVAL3" := Real(0.0000006173345)];
    h := h["CRPIX4" := Int(0)];
    h := h["CDELT4" := Int(1)];
    h := h["CUNIT4" := Str("")];
    h := h["CTYPE4" := Str("STOKES")];
    h := h["CRVAL4" := Int(0)];
  }

  /** The inversion-cube header: `wcs_header` of a map with the parameter axis
      assigned keyword by keyword. */
  method ExtendParameterHeader(base: Header) returns (h: Header)
    ensures OverriddenBy(h, base, ParameterCubeAxes)
  {
    h := base;
    h := h["WCSAXES" := Int(3)];
    h := h["CRPIX3" := Int(0)];
    h := h["CDELT3" := Int(1)];
    h := h["CUNIT3" := Str("")];
    h := h["CTYPE3" := Str("Parameter")];
    h := h["CRVAL3" := Int(0)];
  }

  /** Neither extension touches the celestial axes: every keyword of axes 1 and 2
      keeps the value the map header gave it. */
  lemma {:induction false} ExtensionKeepsSpatialAxes(h: Header, base: Header, extra: Header)
    requires extra == StokesCubeAxes || extra == ParameterCubeAxes
    requires OverriddenBy(h, base, extra)
    ensures forall k :: k in base && IsSpatialKey(k) ==> k in h && h[k] == base[k]
  {
    ExtensionKeysNotSpatial();
  }

  /** Every keyword either extension assigns belongs to axis 3 or 4, or is WCSAXES. */
  lemma ExtensionKeysNotSpatial()
    ensures forall k :: k in StokesCubeAxes ==> !IsSpatialKey(k)
    ensures forall k :: k in ParameterCubeAxes ==> !IsSpatialKey(k)
  {
  }

  /** The numeric value of a keyword. */
  function Number(v: Value): Option<real>
  {
    match v
    case Int(i) => Some(i as real)
    case Real(r) => Some(r)
    case Str(_) => None
  }

  /** The reference pixel, increment and reference value keywords of one axis. */
  datatype AxisKeys = AxisKeys(crpix: string, cdelt: string, crval: string)

  const Axis3: AxisKeys := AxisKeys("CRPIX3", "CDELT3", "CRVAL3")
  const Axis4: AxisKeys := AxisKeys("CRPIX4", "CDELT4", "CRVAL4")

  /** The linear world coordinate of 1-based pixel `p` along the axis whose keywords
      are `n`: CRVALn + CDELTn * (p - CRPIXn). */
  function World(h: Header, n: AxisKeys, p: real): (r: Option<real>)
    ensures r.Some? ==> n.crpix in h && n.cdelt in h && n.crval in h
  {
    if n.crpix in h && n.cdelt in h && n.crval in h &&
       Number(h[n.crpix]).Some? && Number(h[n.cdelt]).Some? && Number(h[n.crval]).Some?
    then Some(Number(h[n.crval]).value + Number(h[n.cdelt]).value * (p - Number(h[n.crpix]).value))
    else None
  }

  /** What the Stokes-cube keywords mean for a cube of shape (4, 6, Y, X): as many
      world axes as data axes, the wavelength axis centred on the line core halfway
      along the six wavelength positions, and Stokes pixels 1..4 mapped to the
      FITS Stokes codes 1..4 (I, Q, U, V). */
  lemma {:induction false} StokesAxesDescribeCube(h: Header, base: Header)
    requires OverriddenBy(h, base, StokesCubeAxes)
    ensures h["WCSAXES"] == Int(4)
    ensures World(h, Axis3, (6 as real + 1.0) / 2.0) == Some(0.0000006173345)
    ensures World(h, Axis3, 1.0) == Some(0.0000006173345 - 2.5 * 0.00000000000688)
    ensures World(h, Axis4, 1.0) == Some(1.0) && World(h, Axis4, 2.0) == Some(2.0)
    ensures World(h, Axis4, 3.0) == Some(3.0) && World(h, Axis4, 4.0) == Some(4.0)
  {
    StokesCubeAxisValues();
    assert h["CRPIX3"] == Real(3.5) && h["CDELT3"] == Real(0.00000000000688) && h["CRVAL3"] == Real(0.0000006173345);
    assert h["CRPIX4"] == Int(0) && h["CDELT4"] == Int(1) && h["CRVAL4"] == Int(0);
  }

  /** The keywords of the wavelength and Stokes axes the extension assigns. */
  lemma StokesCubeAxisValues()
    ensures "WCSAXES" in StokesCubeAxes && StokesCubeAxes["WCSAXES"] == Int(4)
    ensures "CRPIX3" in StokesCubeAxes && StokesCubeAxes["CRPIX3"] == Real(3.5)
    ensures "CDELT3" in StokesCubeAxes && StokesCubeAxes["CDELT3"] == Real(0.00000000000688)
    ensures "CRVAL3" in StokesCubeAxes && StokesCubeAxes["CRVAL3"] == Real(0.0000006173345)
    ensures "CRPIX4" in StokesCubeAxes && StokesCubeAxes["CRPIX4"] == Int(0)
    ensures "CDELT4" in StokesCubeAxes && StokesCubeAxes["CDELT4"] == Int(1)
    ensures "CRVAL4" in StokesCubeAxes && StokesCubeAxes["CRVAL4"] == Int(0)
  {
  }

  /** The keywords of the parameter axis the extension assigns. */
  lemma ParameterCubeAxisValues()
    ensures "WCSAXES" in ParameterCubeAxes && ParameterCubeAxes["WCSAXES"] == Int(3)
    ensures "CTYPE3" in ParameterCubeAxes && ParameterCubeAxes["CTYPE3"] == Str("Parameter")
    ensures "CRPIX3" in ParameterCubeAxes && ParameterCubeAxes["CRPIX3"] == Int(0)
    ensures "CDELT3" in ParameterCubeAxes && ParameterCubeAxes["CDELT3"] == Int(1)
    ensures "CRVAL3" in ParameterCubeAxes && ParameterCubeAxes["CRVAL3"] == Int(0)
  {
  }

  /** What the parameter-cube keywords mean: three world axes, and parameter pixel
      p (1-based) has world coordinate p. */
  lemma {:induction false} ParameterAxisDescribesCube(h: Header, base: Header)
    requires OverriddenBy(h, base, ParameterCubeAxes)
    ensures h["WCSAXES"] == Int(3) && h["CTYPE3"] == Str("Parameter")
    ensures forall p: real :: World(h, Axis3, p) == Some(p)
  {
    ParameterCubeAxisValues();
    assert h["CRPIX3"] == Int(0) && h["CDELT3"] == Int(1) && h["CRVAL3"] == Int(0);
    forall p: real
      ensures World(h, Axis3, p) == Some(p)
    {
    }
  }

  // ---------------------------------------------------------------------------
  // Hinode SP: building the coordinate systems from the FITS headers
  // ---------------------------------------------------------------------------

  /** The physical meaning of a data axis. */
  datatype Axis = Stokes | Wavelength | Latitude | Longitude | Parameter

  function AxisType(a: Axis): string
  {
    match a
    case Stokes => "STOKES"
    case Wavelength => "WAVE"
    case Latitude => "HPLT-TAN"
    case Longitude => "HPLN-TAN"
    case Parameter => "Parameter"
  }

  function AxisTypes(axes: seq<Axis>): (r: seq<string>)
    ensures |r| == |axes|
    ensures forall k {:trigger r[k]} :: 0 <= k < |axes| ==> r[k] == AxisType(axes[k])
  {
    if axes == [] then [] else [AxisType(axes[0])] + AxisTypes(axes[1..])
  }

  function Reverse<T>(xs: seq<T>): (r: seq<T>)
    ensures |r| == |xs|
    ensures forall k {:trigger r[k]} :: 0 <= k < |xs| ==> r[k] == xs[|xs| - 1 - k]
  {
    if xs == [] then [] else Reverse(xs[1..]) + [xs[0]]
  }

  /** Data axis order of the Stokes cube after the transpose: stokes, wav, y, x. */
  const SpStokesDataAxes: seq<Axis> := [Stokes, Wavelength, Latitude, Longitude]

  /** Data axis order of the inversion cube: parameter, y, x. */
  const SpParameterDataAxes: seq<Axis> := [Parameter, Latitude, Longitude]

  /** An `astropy.wcs.WCS(naxis=n)` after its `wcs.ctype`, `cunit`, `crpix`,
      `crval` and `cdelt` lists are assigned. */
  datatype Wcs = Wcs(naxis: nat, ctype: seq<string>, cunit: seq<Value>,
                     crpix: seq<Value>, crval: seq<Value>, cdelt: seq<Value>)

  predicate WellShaped(w: Wcs)
  {
    |w.ctype| == w.naxis && |w.cunit| == w.naxis && |w.crpix| == w.naxis &&
    |w.crval| == w.naxis && |w.cdelt| == w.naxis
  }

  /** The two coordinate systems of a Hinode SP observation. */
  datatype SpWcs = SpWcs(stokes: Wcs, parameters: Wcs)

  const SpStokesKeys: seq<string> := ["CUNIT1", "CRPIX1", "CRVAL1", "CDELT1"]
  const SpLevel2Keys: seq<string> := ["NAXIS1", "NAXIS2", "XSCALE", "YSCALE"]

  /** `(head2['NAXISn'] + 1) / 2` with Python's true division. */
  function CentrePixel(v: Value, key: string): (r: Result<Value>)
    ensures r.Ok? <==> Number(v).Some?
    ensures r.Ok? ==> r.value == Real((Number(v).value + 1.0) / 2.0)
  {
    match v
    case Int(i) => Ok(Real((i as real + 1.0) / 2.0))
    case Real(x) => Ok(Real((x + 1.0) / 2.0))
    case Str(_) => Err(NotNumeric(key))
  }

  /** Both coordinate systems, built from the primary header `head1` of the first
      scan file, the primary header `head2` of the inversion file, and the medians
      `xcen`, `ycen` of the scan files' pointing. Keywords are read in the order the
      assignments read them; the first that is missing, or a NAXISn that is not a
      number, is the error. */
  function BuildSpWcs(head1: Header, head2: Header, xcen: Value, ycen: Value): (r: Result<SpWcs>)
    ensures r.Ok? <==>
      (forall k :: k in SpStokesKeys ==> k in head1) &&
      (forall k :: k in SpLevel2Keys ==> k in head2) &&
      Number(head2["NAXIS1"]).Some? && Number(head2["NAXIS2"]).Some?
    ensures r.Err? ==>
      (exists k :: k in SpStokesKeys && k !in head1 && r.error == MissingKey(k)) ||
      (exists k :: k in SpLevel2Keys && k !in head2 && r.error == MissingKey(k)) ||
      r.error == NotNumeric("NAXIS1") || r.error == NotNumeric("NAXIS2")
  {
    var cunit1 :- Lookup(head1, "CUNIT1");
    var naxis1 :- Lookup(head2, "NAXIS1");
    var centre1 :- CentrePixel(naxis1, "NAXIS1");
    var naxis2 :- Lookup(head2, "NAXIS2");
    var centre2 :- CentrePixel(naxis2, "NAXIS2");
    var crpix1 :- Lookup(head1, "CRPIX1");
    var crval1 :- Lookup(head1, "CRVAL1");
    var xscale :- Lookup(head2, "XSCALE");
    var yscale :- Lookup(head2, "YSCALE");
    var cdelt1 :- Lookup(head1, "CDELT1");
    var stokes := Wcs(4, ["HPLN-TAN", "HPLT-TAN", "WAVE", "STOKES"],
                      [Str("arcsec"), Str("arcsec"), cunit1, Str("")],
                      [centre1, centre2, crpix1, Int(0)],
                      [xcen, ycen, crval1, Int(0)],
                      [xscale, yscale, cdelt1, Int(1)]);
    var parameters := Wcs(3, ["HPLN-TAN", "HPLT-TAN", "Parameter"],
                          [Str("arcsec"), Str("arcsec"), Str("")],
                          [centre1, centre2, Int(0)],
                          [xcen, ycen, Int(0)],
                          [xscale, yscale, Int(1)]);
    Ok(SpWcs(stokes, parameters))
  }

  /** One read of `BuildSpWcs`: a keyword of the scan header, a keyword of the
      inversion header, or the numeric check of a NAXISn already read. */
  datatype HeaderRead = ScanKey(key: string) | InversionKey(key: string) | Numeric(key: string)

  /** The reads in the order the assignments at the top of the source perform them. */
  const SpReadOrder: seq<HeaderRead> := [
    ScanKey("CUNIT1"), InversionKey("NAXIS1"), Numeric("NAXIS1"), InversionKey("NAXIS2"),
    Numeric("NAXIS2"), ScanKey("CRPIX1"), ScanKey("CRVAL1"), InversionKey("XSCALE"),
    InversionKey("YSCALE"), ScanKey("CDELT1")]

  /** How one read fails, if it does. */
  function ReadFailure(head1: Header, head2: Header, read: HeaderRead): Option<Error>
  {
    match read
    case ScanKey(k) => if k in head1 then None else Some(MissingKey(k))
    case InversionKey(k) => if k in head2 then None else Some(MissingKey(k))
    case Numeric(k) => if k in head2 && Number(head2[k]).None? then Some(NotNumeric(k)) else None
  }

  /** The failure of the first read in `order` that fails. */
  function FirstFailure(head1: Header, head2: Header, order: seq<HeaderRead>): (r: Option<Error>)
    ensures r.None? <==> forall i :: 0 <= i < |order| ==> ReadFailure(head1, head2, order[i]).None?
  {
    if order == [] then None
    else if ReadFailure(head1, head2, order[0]).Some? then ReadFailure(head1, head2, order[0])
    else
      assert forall i :: 1 <= i < |order| ==> order[i] == order[1..][i - 1];
      FirstFailure(head1, head2, order[1..])
  }

  /** `FirstFailure` from position `k` on: read `k`, or else the rest. */
  lemma FirstFailureFrom(head1: Header, head2: Header, order: seq<HeaderRead>, k: nat)
    requires k < |order|
    ensures FirstFailure(head1, head2, order[k..]) ==
            if ReadFailure(head1, head2, order[k]).Some? then ReadFailure(head1, head2, order[k])
            else FirstFailure(head1, head2, order[k + 1..])
  {
    assert order[k..][0] == order[k] && order[k..][1..] == order[k + 1..];
  }

  /** The last five reads, read by read. */
  lemma SpReadOrderTail(head1: Header, head2: Header)
    ensures FirstFailure(head1, head2, SpReadOrder[5..]) ==
            if "CRPIX1" !in head1 then Some(MissingKey("CRPIX1"))
            else if "CRVAL1" !in head1 then Some(MissingKey("CRVAL1"))
            else if "XSCALE" !in head2 then Some(MissingKey("XSCALE"))
            else if "YSCALE" !in head2 then Some(MissingKey("YSCALE"))
            else if "CDELT1" !in head1 then Some(MissingKey("CDELT1"))
            else None
  {
    var order := SpReadOrder;
    assert order[10..] == [];
    FirstFailureFrom(head1, head2, order, 5);
    if !("CRPIX1" !in head1) {
      FirstFailureFrom(head1, head2, order, 6);
      if !("CRVAL1" !in head1) {
        FirstFailureFrom(head1, head2, order, 7);
        if !("XSCALE" !in head2) {
          FirstFailureFrom(head1, head2, order, 8);
          if !("YSCALE" !in head2) {
            FirstFailureFrom(head1, head2, order, 9);
          }
        }
      }
    }
  }

  /** The first failure among the reads in the source's order, read by read. */
  lemma SpReadOrderFailures(head1: Header, head2: Header)
    ensures FirstFailure(head1, head2, SpReadOrder) ==
            if "CUNIT1" !in head1 then Some(MissingKey("CUNIT1"))
            else if "NAXIS1" !in head2 then Some(MissingKey("NAXIS1"))
            else if Number(head2["NAXIS1"]).None? then Some(NotNumeric("NAXIS1"))
            else if "NAXIS2" !in head2 then Some(MissingKey("NAXIS2"))
            else if Number(head2["NAXIS2"]).None? then Some(NotNumeric("NAXIS2"))
            else if "CRPIX1" !in head1 then Some(MissingKey("CRPIX1"))
            else if "CRVAL1" !in head1 then Some(MissingKey("CRVAL1"))
            else if "XSCALE" !in head2 then Some(MissingKey("XSCALE"))
            else if "YSCALE" !in head2 then Some(MissingKey("YSCALE"))
            else if "CDELT1" !in head1 then Some(MissingKey("CDELT1"))
            else None
  {
    var order := SpReadOrder;
    assert order[0..] == order;
    SpReadOrderTail(head1, head2);
    FirstFailureFrom(head1, head2, order, 0);
    if !("CUNIT1" !in head1) {
      FirstFailureFrom(head1, head2, order, 1);
      if !("NAXIS1" !in head2) {
        FirstFailureFrom(head1, head2, order, 2);
        if !(Number(head2["NAXIS1"]).None?) {
          FirstFailureFrom(head1, head2, order, 3);
          if !("NAXIS2" !in head2) {
            FirstFailureFrom(head1, head2, order, 4);
          }
        }
      }
    }
  }

  /** The coordinate systems are built exactly when no read fails, and otherwise
      the error is that of the first read that fails, in the source's order. */
  lemma BuildSpWcsFirstFailure(head1: Header, head2: Header, xcen: Value, ycen: Value)
    ensures BuildSpWcs(head1, head2, xcen, ycen).Ok? <==> FirstFailure(head1, head2, SpReadOrder).None?
    ensures BuildSpWcs(head1, head2, xcen, ycen).Err? ==>
              BuildSpWcs(head1, head2, xcen, ycen).error == FirstFailure(head1, head2, SpReadOrder).value
  {
    SpReadOrderFailures(head1, head2);
  }

  /** The world axis types, read from the last data axis to the first. */
  lemma ReversedAxisTypes()
    ensures AxisTypes(Reverse(SpStokesDataAxes)) == ["HPLN-TAN", "HPLT-TAN", "WAVE", "STOKES"]
    ensures AxisTypes(Reverse(SpParameterDataAxes)) == ["HPLN-TAN", "HPLT-TAN", "Parameter"]
  {
    assert Reverse(SpStokesDataAxes) == [Longitude, Latitude, Wavelength, Stokes];
    assert Reverse(SpParameterDataAxes) == [Longitude, Latitude, Parameter];
  }

  /** The layout of both coordinate systems once the headers are complete. */
  lemma {:induction false} SpWcsLayout(head1: Header, head2: Header, xcen: Value, ycen: Value)
    requires BuildSpWcs(head1, head2, xcen, ycen).Ok?
    // the world axes run opposite to the data axes, one per data axis
    ensures
      var w := BuildSpWcs(head1, head2, xcen, ycen).value;
      WellShaped(w.stokes) && w.stokes.naxis == |SpStokesDataAxes| &&
      w.stokes.ctype == AxisTypes(Reverse(SpStokesDataAxes)) &&
      WellShaped(w.parameters) && w.parameters.naxis == |SpParameterDataAxes| &&
      w.parameters.ctype == AxisTypes(Reverse(SpParameterDataAxes))
    // both cubes share the celestial axes, taken from the inversion header and the pointing
    ensures
      var w := BuildSpWcs(head1, head2, xcen, ycen).value;
      w.stokes.cunit[..2] == w.parameters.cunit[..2] == [Str("arcsec"), Str("arcsec")] &&
      w.stokes.crpix[..2] == w.parameters.crpix[..2] ==
        [Real((Number(head2["NAXIS1"]).value + 1.0) / 2.0), Real((Number(head2["NAXIS2"]).value + 1.0) / 2.0)] &&
      w.stokes.crval[..2] == w.parameters.crval[..2] == [xcen, ycen] &&
      w.stokes.cdelt[..2] == w.parameters.cdelt[..2] == [head2["XSCALE"], head2["YSCALE"]]
    // the wavelength axis is the scan files' axis 1; Stokes and parameter axes are plain indices
    ensures
      var w := BuildSpWcs(head1, head2, xcen, ycen).value;
      w.stokes.cunit[2] == head1["CUNIT1"] && w.stokes.crpix[2] == head1["CRPIX1"] &&
      w.stokes.crval[2] == head1["CRVAL1"] && w.stokes.cdelt[2] == head1["CDELT1"] &&
      w.stokes.cunit[3] == w.parameters.cunit[2] == Str("") &&
      w.stokes.crpix[3] == w.parameters.crpix[2] == Int(0) &&
      w.stokes.crval[3] == w.parameters.crval[2] == Int(0) &&
      w.stokes.cdelt[3] == w.parameters.cdelt[2] == Int(1)
  {
    ReversedAxisTypes();
  }
}
