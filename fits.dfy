/** What the external FITS / sunpy decoders hand to the loader: header keyword
    values, header dictionaries, 2-D images, and maps pairing an image with the
    coordinate header of its two spatial axes. */
module Fits {

  /** A header keyword value. Floating-point values are kept as exact decimals. */
  datatype Value = Int(i: int) | Real(r: real) | Str(s: string)

  type Header = map<string, Value>

  /** A 2-D image, row-major: `img[y][x]`. */
  type Image = seq<seq<real>>

  /** A 3-D block, `block[a][b][c]`. */
  type Block = seq<seq<seq<real>>>

  /** A decoded `sunpy.map.Map`: its pixel data and `map.wcs.to_header()`. */
  datatype SolarMap = SolarMap(data: Image, header: Header)

  /** `image.shape` of a rectangular image. */
  function Dims(img: Image): (nat, nat)
  {
    (|img|, if |img| == 0 then 0 else |img[0]|)
  }

  predicate IsGrid(img: Image)
  {
    forall y :: 0 <= y < |img| ==> |img[y]| == Dims(img).1
  }

  /** Images that `np.asarray` stacks into one 3-D array: all rectangular and of
      one shape. */
  predicate Stackable(images: seq<Image>)
  {
    forall i :: 0 <= i < |images| ==> IsGrid(images[i]) && Dims(images[i]) == Dims(images[0])
  }

  /** `block.shape == (a, b, c)`. */
  predicate IsBox(block: Block, a: nat, b: nat, c: nat)
  {
    && |block| == a
    && (forall i :: 0 <= i < a ==> |block[i]| == b)
    && (forall i, j :: 0 <= i < a && 0 <= j < b ==> |block[i][j]| == c)
  }

  /** `block.shape`, read off its first row and column. */
  function BlockDims(block: Block): (nat, nat, nat)
  {
    if |block| == 0 then (0, 0, 0)
    else if |block[0]| == 0 then (|block|, 0, 0)
    else (|block|, |block[0]|, |block[0][0]|)
  }

  function Lookup(h: Header, key: string): (r: Result<Value>)
    ensures r.Ok? <==> key in h
    ensures r.Ok? ==> r.value == h[key]
  {
    if key in h then Ok(h[key]) else Err(MissingKey(key))
  }

  import opened Outcomes
}
