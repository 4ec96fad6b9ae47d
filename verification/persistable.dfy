/**
  The value-bridge codec: how value types that Realm cannot store directly
  are written as a fixed-position `PersitableArray` of components and read
  back by index.

  The codec is modelled on the element sequence of the `PersitableArray`
  (`persistableValue` builds `PersitableArray([...])`, `init(persistedValue:)`
  reads `persistedValue[i]`). A decoder reads only the indices it needs, left
  to right: an array that is too short traps at its first missing index, and
  elements past the last index read are ignored.
 */
module Persistable {
  import opened Traps

  /** Swift `Double` / `CGFloat`. The codec only copies these values. */
  type Double = real

  /** Swift `Int`. The codec only copies these values. */
  type Int = int

  // ---------------------------------------------------------------------
  // Geometry values

  datatype CGPoint = CGPoint(x: Double, y: Double)

  datatype CGSize = CGSize(width: Double, height: Double)

  /** A rectangle is an origin and a size; either size component may be negative. */
  datatype CGRect = CGRect(origin: CGPoint, size: CGSize)

  /** `CGRect(x:y:width:height:)` stores the four values as given. */
  function MakeRect(x: Double, y: Double, width: Double, height: Double): (r: CGRect) {
    CGRect(CGPoint(x, y), CGSize(width, height))
  }

  function Abs(d: Double): (r: Double) {
    if d < 0.0 then -d else d
  }

  /** `rect.x` and `rect.y`: the origin's components. */
  function RectX(r: CGRect): (x: Double) {
    r.origin.x
  }

  function RectY(r: CGRect): (y: Double) {
    r.origin.y
  }

  /**
    `rect.width` and `rect.height`: CoreGraphics answers as if the rectangle
    were standardised, so both are never negative.
   */
  function RectWidth(r: CGRect): (width: Double) {
    Abs(r.size.width)
  }

  function RectHeight(r: CGRect): (height: Double) {
    Abs(r.size.height)
  }

  // ---------------------------------------------------------------------
  // CGPoint: [x, y]

  /** `CGPoint.persistableValue`: two components that decode back to `p`. */
  function EncodePoint(p: CGPoint): (a: seq<Double>)
    ensures |a| == 2
    ensures DecodePoint(a) == Ok(p)
  {
    [p.x, p.y]
  }

  /** `CGPoint(persistedValue:)`: x from index 0, y from index 1. */
  function DecodePoint(a: seq<Double>): (r: Result<CGPoint>)
    ensures |a| < 2 ==> r == Trapped(IndexOutOfRange(|a|))
    ensures |a| >= 2 ==> r == Ok(CGPoint(a[0], a[1]))
  {
    var x :- Subscript(a, 0);
    var y :- Subscript(a, 1);
    Ok(CGPoint(x, y))
  }

  /** Decoding then encoding gives back exactly the two components that were read. */
  lemma PointComponentsRoundTrip(a: seq<Double>)
    requires |a| >= 2
    ensures DecodePoint(a).Ok?
    ensures EncodePoint(DecodePoint(a).value) == a[..2]
  {
  }

  // ---------------------------------------------------------------------
  // CGSize: [width, height]

  /** `CGSize.persistableValue`: two components that decode back to `s`. */
  function EncodeSize(s: CGSize): (a: seq<Double>)
    ensures |a| == 2
    ensures DecodeSize(a) == Ok(s)
  {
    [s.width, s.height]
  }

  /** `CGSize(persistedValue:)`: width from index 0, height from index 1. */
  function DecodeSize(a: seq<Double>): (r: Result<CGSize>)
    ensures |a| < 2 ==> r == Trapped(IndexOutOfRange(|a|))
    ensures |a| >= 2 ==> r == Ok(CGSize(a[0], a[1]))
  {
    var width :- Subscript(a, 0);
    var height :- Subscript(a, 1);
    Ok(CGSize(width, height))
  }

  lemma SizeComponentsRoundTrip(a: seq<Double>)
    requires |a| >= 2
    ensures DecodeSize(a).Ok?
    ensures EncodeSize(DecodeSize(a).value) == a[..2]
  {
  }

  // ---------------------------------------------------------------------
  // CGRect: [x, y, width, height]

  /**
    `CGRect.persistableValue` as written: `[x, y, width, height]` through the
    rectangle's accessors. Because `width` and `height` are standardised, the
    round trip holds exactly for rectangles whose size is not negative.
   */
  function EncodeRectAsWritten(r: CGRect): (a: seq<Double>)
    ensures |a| == 4
    ensures DecodeRect(a) == Ok(r) <==> r.size.width >= 0.0 && r.size.height >= 0.0
  {
    [RectX(r), RectY(r), RectWidth(r), RectHeight(r)]
  }

  /** A rectangle of width -1 comes back with width 1. */
  lemma NegativeWidthRectLosesSign()
    ensures DecodeRect(EncodeRectAsWritten(MakeRect(0.0, 0.0, -1.0, 1.0))) == Ok(MakeRect(0.0, 0.0, 1.0, 1.0))
  {
  }

  /**
    The rectangle encoding with the stored size: four components that decode
    back to `r` for every rectangle, and that agree with the encoding as
    written whenever the size is not negative.
   */
  function EncodeRect(r: CGRect): (a: seq<Double>)
    ensures |a| == 4
    ensures DecodeRect(a) == Ok(r)
    ensures r.size.width >= 0.0 && r.size.height >= 0.0 ==> a == EncodeRectAsWritten(r)
  {
    [r.origin.x, r.origin.y, r.size.width, r.size.height]
  }

  /** `CGRect(persistedValue:)`: x, y, width, height from indices 0 to 3. */
  function DecodeRect(a: seq<Double>): (r: Result<CGRect>)
    ensures |a| < 4 ==> r == Trapped(IndexOutOfRange(|a|))
    ensures |a| >= 4 ==> r == Ok(MakeRect(a[0], a[1], a[2], a[3]))
  {
    var x :- Subscript(a, 0);
    var y :- Subscript(a, 1);
    var width :- Subscript(a, 2);
    var height :- Subscript(a, 3);
    Ok(MakeRect(x, y, width, height))
  }

  /**
    Decoding then encoding as written restores the four components read
    exactly when the width and height read are not negative.
   */
  lemma RectComponentsRoundTripAsWritten(a: seq<Double>)
    requires |a| >= 4
    ensures DecodeRect(a).Ok?
    ensures EncodeRectAsWritten(DecodeRect(a).value) == a[..4] <==> a[2] >= 0.0 && a[3] >= 0.0
  {
  }

  /** With the corrected encoding, decoding then encoding restores the four components read. */
  lemma RectComponentsRoundTrip(a: seq<Double>)
    requires |a| >= 4
    ensures DecodeRect(a).Ok?
    ensures EncodeRect(DecodeRect(a).value) == a[..4]
  {
  }

  // ---------------------------------------------------------------------
  // DataSize: [bytes, countStyle.rawValue]

  /**
    `DataSize.CountStyle`. Its cases and raw values belong to FZSwiftUtils,
    which is not part of this model; four cases numbered 0 to 3 stand in for
    them. What the codec relies on is stated through `CountStyleRawValue` and
    its partial inverse `CountStyleFromRaw`, not through the numbers.
   */
  datatype CountStyle = File | Memory | Decimal | Binary

  /** `countStyle.rawValue`. */
  function CountStyleRawValue(s: CountStyle): (raw: Int) {
    match s
    case File => 0
    case Memory => 1
    case Decimal => 2
    case Binary => 3
  }

  /** `CountStyle(rawValue:)`: nil for a number that is no style's raw value. */
  function CountStyleFromRaw(raw: Int): (s: Option<CountStyle>)
    ensures s.Some? ==> CountStyleRawValue(s.value) == raw
    ensures s.None? ==> forall t: CountStyle :: CountStyleRawValue(t) != raw
  {
    if raw == 0 then Some(File)
    else if raw == 1 then Some(Memory)
    else if raw == 2 then Some(Decimal)
    else if raw == 3 then Some(Binary)
    else None
  }

  /** Every style is recovered from its raw value, so `rawValue` is injective. */
  lemma CountStyleRawValueRoundTrip(s: CountStyle, t: CountStyle)
    ensures CountStyleFromRaw(CountStyleRawValue(s)) == Some(s)
    ensures CountStyleRawValue(s) == CountStyleRawValue(t) ==> s == t
  {
  }

  /** A byte count and the style it is displayed in. */
  datatype DataSize = DataSize(bytes: Int, countStyle: CountStyle)

  /** `DataSize.persistableValue`: two components that decode back to `d`. */
  function EncodeDataSize(d: DataSize): (a: seq<Int>)
    ensures |a| == 2
    ensures DecodeDataSize(a) == Ok(d)
  {
    CountStyleRawValueRoundTrip(d.countStyle, d.countStyle);
    [d.bytes, CountStyleRawValue(d.countStyle)]
  }

  /**
    `DataSize(persistedValue:)`: the bytes from index 0 and the style whose raw
    value is at index 1, force-unwrapped.
   */
  function DecodeDataSize(a: seq<Int>): (r: Result<DataSize>)
    ensures |a| < 2 ==> r == Trapped(IndexOutOfRange(|a|))
    ensures |a| >= 2 && CountStyleFromRaw(a[1]).None? ==> r == Trapped(UnexpectedlyFoundNil)
    ensures r.Ok? <==> |a| >= 2 && CountStyleFromRaw(a[1]).Some?
    ensures r.Ok? ==> r.value.bytes == a[0] && CountStyleRawValue(r.value.countStyle) == a[1]
  {
    var bytes :- Subscript(a, 0);
    var raw :- Subscript(a, 1);
    var style :- ForceUnwrap(CountStyleFromRaw(raw));
    Ok(DataSize(bytes, style))
  }

  lemma DataSizeComponentsRoundTrip(a: seq<Int>)
    requires |a| >= 2 && CountStyleFromRaw(a[1]).Some?
    ensures DecodeDataSize(a).Ok?
    ensures EncodeDataSize(DecodeDataSize(a).value) == a[..2]
  {
  }

  // ---------------------------------------------------------------------
  // Colours: [red, green, blue, alpha]

  datatype RGBA = RGBA(red: Double, green: Double, blue: Double, alpha: Double)

  /**
    A `CGColor`, seen through what its `rgbaComponents()` returns: nil when
    the colour has no RGBA representation.
   */
  datatype CGColor = CGColor(rgbaComponents: Option<RGBA>)

  /** An `NSColor` / `UIColor`, whose `rgbaComponents()` always answers. */
  datatype NSUIColor = NSUIColor(rgbaComponents: RGBA)

  /**
    `CGColor.persistableValue`: four components that read back as the
    colour's RGBA components, or as transparent black when it has none.
   */
  function EncodeCGColor(c: CGColor): (a: seq<Double>)
    ensures |a| == 4
    ensures c.rgbaComponents.Some? ==> DecodeColorArguments(a) == Ok(c.rgbaComponents.value)
    ensures c.rgbaComponents.None? ==> DecodeColorArguments(a) == Ok(RGBA(0.0, 0.0, 0.0, 0.0))
  {
    match c.rgbaComponents
    case None => [0.0, 0.0, 0.0, 0.0]
    case Some(rgba) => [rgba.red, rgba.green, rgba.blue, rgba.alpha]
  }

  /** `NSUIColor.persistableValue`: four components that read back as the colour's RGBA components. */
  function EncodeNSUIColor(c: NSUIColor): (a: seq<Double>)
    ensures |a| == 4
    ensures DecodeColorArguments(a) == Ok(c.rgbaComponents)
  {
    var rgba := c.rgbaComponents;
    [rgba.red, rgba.green, rgba.blue, rgba.alpha]
  }

  /**
    The `red`, `green`, `blue` and `alpha` arguments that `init(persistedValue:)`
    of `CGColor` and of `NSUIColor` reads from indices 0 to 3 and hands to
    `init(red:green:blue:alpha:)`.
   */
  function DecodeColorArguments(a: seq<Double>): (r: Result<RGBA>)
    ensures |a| < 4 ==> r == Trapped(IndexOutOfRange(|a|))
    ensures |a| >= 4 ==> r == Ok(RGBA(a[0], a[1], a[2], a[3]))
  {
    var red :- Subscript(a, 0);
    var green :- Subscript(a, 1);
    var blue :- Subscript(a, 2);
    var alpha :- Subscript(a, 3);
    Ok(RGBA(red, green, blue, alpha))
  }

  /**
    Four components read as colour arguments encode back to exactly those
    components, for a colour whose `rgbaComponents()` reports the arguments
    it was built from.
   */
  lemma ColorComponentsRoundTrip(a: seq<Double>)
    requires |a| >= 4
    ensures DecodeColorArguments(a).Ok?
    ensures EncodeNSUIColor(NSUIColor(DecodeColorArguments(a).value)) == a[..4]
    ensures EncodeCGColor(CGColor(Some(DecodeColorArguments(a).value))) == a[..4]
  {
  }

  // ---------------------------------------------------------------------
  // What every decoder shares

  /**
    No decoder checks the length: once the indices it reads are present,
    anything appended after them changes nothing.
   */
  lemma TrailingComponentsIgnored(a: seq<Double>, b: seq<Int>, extra: seq<Double>, extraInts: seq<Int>)
    ensures |a| >= 2 ==> DecodePoint(a + extra) == DecodePoint(a)
    ensures |a| >= 2 ==> DecodeSize(a + extra) == DecodeSize(a)
    ensures |a| >= 4 ==> DecodeRect(a + extra) == DecodeRect(a)
    ensures |a| >= 4 ==> DecodeColorArguments(a + extra) == DecodeColorArguments(a)
    ensures |b| >= 2 ==> DecodeDataSize(b + extraInts) == DecodeDataSize(b)
  {
  }
}
