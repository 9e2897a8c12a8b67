/**
 * The bounding-box JSON the detection prompt asks the model for
 * (`{"box_2d": [ymin, xmin, ymax, xmax], "label": ...}` on a 0-1000 scale)
 * and the two ways the backends read it: Python's evaluation of
 * `bbox["box_2d"][k] / 1000` for k = 0..3, and `int(v / 1000 * dim)` pixel
 * conversion. Floats are exact reals here.
 */
module Boxes {
  import opened Wrappers

  type Bytes = seq<bv8>

  /** A picture as PIL opens it: its bytes and its size. */
  datatype Image = Image(data: Bytes, width: nat, height: nat)

  /** One element of a `box_2d` list: a JSON number (`true` and `false`
      divide like 1 and 0), or a value (string, null, list, object) on which
      Python's `/` raises TypeError. */
  datatype Coord = Num(value: real) | NotNumber

  /** The value under the `box_2d` key, as far as `box_2d[k]` for k = 0..3
      tells them apart: a list; a string, whose elements are one-character
      strings; an object, in which an integer key is never found, as JSON
      keys are strings; or a number, boolean or null, which cannot be
      indexed at all. */
  datatype BoxValue = List(coords: seq<Coord>) | Str(chars: string) | Object | Scalar

  /** One element of the model's JSON list: an object, in which `None` is a
      missing key, or any other JSON value, on which `bbox["box_2d"]` raises
      TypeError. */
  datatype RawBox =
    | RawBox(box2d: Option<BoxValue>, objectLabel: Option<string>, confidence: Option<real>)
    | NonObject

  /** The label a box without a `label` key gets. */
  const DefaultLabel: string := "object"

  /** `bbox.get(key, default)`. */
  function GetOr<T>(o: Option<T>, default: T): (r: T)
    ensures o.Some? ==> r == o.value
    ensures o.None? ==> r == default
  {
    if o.Some? then o.value else default
  }

  /** The four coordinates in the order the model returns them. */
  datatype Box2d = Box2d(ymin: real, xmin: real, ymax: real, xmax: real)

  /** How reading `box_2d[0] .. box_2d[3]` in order ends: the four values,
      a LookupError (an IndexError or a KeyError, which every caller
      treats alike) or a TypeError. */
  datatype BoxRead = Read(box: Box2d) | LookupError | TypeError

  /** Reads the first four elements of a list in Python's evaluation order. */
  function ReadBox(cs: seq<Coord>): (r: BoxRead)
    ensures r.Read? <==> |cs| >= 4 && forall k :: 0 <= k < 4 ==> cs[k].Num?
    ensures r.Read? ==> r.box == Box2d(cs[0].value, cs[1].value, cs[2].value, cs[3].value)
    // the IndexError comes first exactly when every element before the
    // missing index is a number
    ensures r.LookupError? <==> |cs| < 4 && forall k :: 0 <= k < |cs| ==> cs[k].Num?
  {
    if |cs| == 0 then LookupError
    else if cs[0].NotNumber? then TypeError
    else if |cs| == 1 then LookupError
    else if cs[1].NotNumber? then TypeError
    else if |cs| == 2 then LookupError
    else if cs[2].NotNumber? then TypeError
    else if |cs| == 3 then LookupError
    else if cs[3].NotNumber? then TypeError
    else Read(Box2d(cs[0].value, cs[1].value, cs[2].value, cs[3].value))
  }

  /** Reads `v[0] / 1000` .. `v[3] / 1000` for any value `v` of `box_2d`:
      only a list can give four numbers; `""[0]` is an IndexError and
      `{}[0]` a KeyError; the first character of a non-empty string cannot
      be divided, and a scalar cannot be indexed, so both are TypeErrors. */
  function ReadValue(v: BoxValue): (r: BoxRead)
    ensures v.List? ==> r == ReadBox(v.coords)
    ensures !v.List? ==> !r.Read? && (r.LookupError? <==> v.Object? || v == Str(""))
  {
    match v
    case List(cs) => ReadBox(cs)
    case Str(chars) => if chars == "" then LookupError else TypeError
    case Object => LookupError
    case Scalar => TypeError
  }

  /** The read of one list element: a missing `box_2d` key raises KeyError,
      and an element that is not an object raises TypeError. */
  function ReadRawBox(b: RawBox): (r: BoxRead)
    ensures b.NonObject? ==> r == TypeError
    ensures b.RawBox? && b.box2d.None? ==> r == LookupError
    ensures b.RawBox? && b.box2d.Some? ==> r == ReadValue(b.box2d.value)
  {
    match b
    case NonObject => TypeError
    case RawBox(box2d, _, _) => if box2d.None? then LookupError else ReadValue(box2d.value)
  }

  /** Python `int(r)` on a float: truncation toward zero. */
  function Trunc(r: real): (t: int)
    ensures 0.0 <= r ==> 0 <= t && t as real <= r < t as real + 1.0
    ensures r < 0.0 ==> t <= 0 && t as real - 1.0 < r <= t as real
  {
    if r >= 0.0 then r.Floor else -((-r).Floor)
  }

  /** Truncation is monotone. */
  lemma TruncMonotone(r: real, s: real)
    requires r <= s
    ensures Trunc(r) <= Trunc(s)
  {
  }

  /** `int(v / 1000 * dim)`: a 0-1000 coordinate scaled to a pixel count. */
  function ToPixel(v: real, dim: nat): (p: int)
    ensures 0.0 <= v <= 1000.0 ==> 0 <= p <= dim
  {
    ScaledBounds(v, dim);
    Trunc(v / 1000.0 * dim as real)
  }

  /** A 0-1000 coordinate lands in 0..dim, and a non-negative one is scaled
      down to the pixel it falls in. */
  lemma ToPixelBounds(v: real, dim: nat)
    ensures 0.0 <= v <= 1000.0 ==> 0 <= ToPixel(v, dim) <= dim
    ensures 0.0 <= v ==> ToPixel(v, dim) as real <= v / 1000.0 * dim as real < ToPixel(v, dim) as real + 1.0
  {
    ScaledBounds(v, dim);
  }

  lemma ScaledBounds(v: real, dim: nat)
    ensures 0.0 <= v ==> 0.0 <= v / 1000.0 * dim as real
    ensures 0.0 <= v <= 1000.0 ==> v / 1000.0 * dim as real <= dim as real
  {
    if 0.0 <= v {
      MulLeq(0.0, v / 1000.0, dim as real);
      if v <= 1000.0 { MulLeq(v / 1000.0, 1.0, dim as real); }
    }
  }

  lemma MulLeq(a: real, b: real, c: real)
    requires a <= b && 0.0 <= c
    ensures a * c <= b * c
  {
  }

  /** A larger coordinate never gives a smaller pixel. */
  lemma ToPixelMonotone(v: real, w: real, dim: nat)
    requires v <= w
    ensures ToPixel(v, dim) <= ToPixel(w, dim)
  {
    MulLeq(v / 1000.0, w / 1000.0, dim as real);
    TruncMonotone(v / 1000.0 * dim as real, w / 1000.0 * dim as real);
  }

  /** Pixel corners, in the order the backends report them:
      `[x1, y1, x2, y2]`. */
  datatype PixelBox = PixelBox(x1: int, y1: int, x2: int, y2: int) {
    function Coords(): (c: seq<int>)
      ensures |c| == 4
    {
      [x1, y1, x2, y2]
    }
  }

  /** `[ymin, xmin, ymax, xmax]` to pixels: x against the width, y against
      the height. */
  function ToPixelBox(b: Box2d, width: nat, height: nat): (p: PixelBox)
    ensures p.Coords() == [ToPixel(b.xmin, width), ToPixel(b.ymin, height),
                           ToPixel(b.xmax, width), ToPixel(b.ymax, height)]
  {
    PixelBox(ToPixel(b.xmin, width), ToPixel(b.ymin, height), ToPixel(b.xmax, width), ToPixel(b.ymax, height))
  }

  /** Every coordinate on the 0-1000 scale. */
  predicate InScale(b: Box2d) {
    0.0 <= b.ymin <= 1000.0 && 0.0 <= b.xmin <= 1000.0 &&
    0.0 <= b.ymax <= 1000.0 && 0.0 <= b.xmax <= 1000.0
  }

  /** A box on the 0-1000 scale lands inside the image, and an ordered box
      (min <= max on both axes) stays ordered in pixels. */
  lemma PixelBoxInImage(b: Box2d, width: nat, height: nat)
    requires InScale(b)
    ensures var p := ToPixelBox(b, width, height);
      0 <= p.x1 <= width && 0 <= p.x2 <= width && 0 <= p.y1 <= height && 0 <= p.y2 <= height &&
      (b.xmin <= b.xmax ==> p.x1 <= p.x2) && (b.ymin <= b.ymax ==> p.y1 <= p.y2)
  {
    ToPixelBounds(b.xmin, width);
    ToPixelBounds(b.xmax, width);
    ToPixelBounds(b.ymin, height);
    ToPixelBounds(b.ymax, height);
    if b.xmin <= b.xmax { ToPixelMonotone(b.xmin, b.xmax, width); }
    if b.ymin <= b.ymax { ToPixelMonotone(b.ymin, b.ymax, height); }
  }
}
