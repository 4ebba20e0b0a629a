/** `EncodedOrigin`: the orientation of encoded image data, with the
    discriminants of the Orientation tag (0x0112) of Exif 2.2, section 4.6.4:
    1 is the default orientation and 5 to 8 include a quarter turn.
 */
module Codec {

  datatype EncodedOrigin =
    | TopLeft      // default
    | TopRight     // reflected across the y-axis
    | BottomRight  // rotated 180
    | BottomLeft   // reflected across the x-axis
    | LeftTop      // reflected across the x-axis, rotated 90 CCW
    | RightTop     // rotated 90 CW
    | RightBottom  // reflected across the x-axis, rotated 90 CW
    | LeftBottom   // rotated 90 CCW

  /** The variants in declaration order. */
  const Variants: seq<EncodedOrigin> :=
    [TopLeft, TopRight, BottomRight, BottomLeft, LeftTop, RightTop, RightBottom, LeftBottom]

  /** `into_native`: the `i32` discriminant shared with `SkEncodedOrigin`. */
  function ToNative(o: EncodedOrigin): (code: int)
    ensures 1 <= code <= 8
    ensures Variants[code - 1] == o
  {
    match o
    case TopLeft => 1
    case TopRight => 2
    case BottomRight => 3
    case BottomLeft => 4
    case LeftTop => 5
    case RightTop => 6
    case RightBottom => 7
    case LeftBottom => 8
  }

  /** `from_native`: a layout-compatible reinterpretation, defined only for
      the eight native codes. */
  function FromNative(code: int): (o: EncodedOrigin)
    requires 1 <= code <= 8
    ensures ToNative(o) == code
  {
    Variants[code - 1]
  }

  /** The enum is a bijection onto the codes 1..8. */
  lemma NativeRoundTrip(o: EncodedOrigin, code: int)
    ensures FromNative(ToNative(o)) == o
    ensures 1 <= code <= 8 ==> ToNative(FromNative(code)) == code
  {
  }

  /** The variants are declared in Exif order: the i-th has code i + 1. */
  lemma DeclarationOrder()
    ensures |Variants| == 8
    ensures forall i | 0 <= i < |Variants| :: ToNative(Variants[i]) == i + 1
  {
  }

  /** `Default::default()`. */
  function DefaultOrigin(): (o: EncodedOrigin)
    ensures ToNative(o) == 1
    ensures forall x :: ToNative(o) <= ToNative(x)
  {
    TopLeft
  }

  /** `EncodedOrigin::DEFAULT`. */
  const DEFAULT: EncodedOrigin := TopLeft

  /** `EncodedOrigin::LAST`. */
  const LAST: EncodedOrigin := LeftBottom

  /** Both defaults are the Exif default orientation, code 1, the least code. */
  lemma DefaultsAgree(o: EncodedOrigin)
    ensures DefaultOrigin() == DEFAULT
    ensures ToNative(DEFAULT) == 1
    ensures ToNative(DEFAULT) <= ToNative(o)
  {
  }

  /** `LAST` has the greatest code of all variants. */
  lemma LastIsGreatest(o: EncodedOrigin)
    ensures ToNative(o) <= ToNative(LAST)
    ensures ToNative(o) == ToNative(LAST) ==> o == LAST
  {
  }

  /** `swaps_width_height`: the code is at least that of `LeftTop`. */
  function SwapsWidthHeight(o: EncodedOrigin): (r: bool)
    ensures r <==> o in {LeftTop, RightTop, RightBottom, LeftBottom}
  {
    ToNative(o) >= ToNative(LeftTop)
  }

  /** Swapping is monotone in the code. */
  lemma SwapsMonotone(o1: EncodedOrigin, o2: EncodedOrigin)
    requires SwapsWidthHeight(o1) && ToNative(o1) <= ToNative(o2)
    ensures SwapsWidthHeight(o2)
  {
  }

  // ---------------------------------------------------------------------
  // The geometric meaning of each orientation
  // ---------------------------------------------------------------------

  datatype Reflection = NoReflection | AcrossYAxis | AcrossXAxis
  datatype Rotation = NoRotation | Rotate90CW | Rotate180 | Rotate90CCW
  datatype Transform = Transform(reflection: Reflection, rotation: Rotation)

  /** The transform each variant's documentation names. */
  function Describe(o: EncodedOrigin): Transform {
    match o
    case TopLeft => Transform(NoReflection, NoRotation)
    case TopRight => Transform(AcrossYAxis, NoRotation)
    case BottomRight => Transform(NoReflection, Rotate180)
    case BottomLeft => Transform(AcrossXAxis, NoRotation)
    case LeftTop => Transform(AcrossXAxis, Rotate90CCW)
    case RightTop => Transform(NoReflection, Rotate90CW)
    case RightBottom => Transform(AcrossXAxis, Rotate90CW)
    case LeftBottom => Transform(NoReflection, Rotate90CCW)
  }

  /** The size of a `width` x `height` source after applying `t`: a
      reflection keeps it, a quarter turn exchanges the sides. */
  function OrientedSize(t: Transform, width: int, height: int): (int, int) {
    match t.rotation
    case Rotate90CW => (height, width)
    case Rotate90CCW => (height, width)
    case _ => (width, height)
  }

  /** Distinct variants describe distinct transforms. */
  lemma DescribeInjective(o1: EncodedOrigin, o2: EncodedOrigin)
    requires Describe(o1) == Describe(o2)
    ensures o1 == o2
  {
  }

  /** `swaps_width_height` holds exactly for the orientations whose transform
      exchanges width and height of a non-square source. */
  lemma SwapsMeansQuarterTurn(o: EncodedOrigin, width: int, height: int)
    requires width != height
    ensures SwapsWidthHeight(o) <==> OrientedSize(Describe(o), width, height) == (height, width)
    ensures !SwapsWidthHeight(o) <==> OrientedSize(Describe(o), width, height) == (width, height)
  {
  }
}
