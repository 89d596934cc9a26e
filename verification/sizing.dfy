/** The size `_sizeVis` gives the view: the element's measured width, and a height taken
    from the aspect ratio when one is present. */
module Sizing {
  import opened Values

  datatype Size = Size(width: real, height: real)

  /** The size for measured element dimensions and the `aspectRatio` attribute
      (`isPresent` holds for every number, 0 included, so only None falls back). */
  function TargetSize(measuredWidth: real, measuredHeight: real, aspectRatio: Option<real>): (s: Size)
    ensures s.width == measuredWidth
    ensures aspectRatio.None? ==> s.height == measuredHeight
    // with a ratio the element's height plays no part: height over width is the ratio
    ensures aspectRatio.Some? ==> s.height == aspectRatio.value * s.width
    // a zero width is not guarded against: with a ratio it gives a zero-area size
    ensures measuredWidth == 0.0 && aspectRatio.Some? ==> s == Size(0.0, 0.0)
    // nothing is negative unless a measurement or the ratio is
    ensures measuredWidth >= 0.0 && measuredHeight >= 0.0 && (aspectRatio.Some? ==> aspectRatio.value >= 0.0)
      ==> s.width >= 0.0 && s.height >= 0.0
  {
    Size(measuredWidth, if aspectRatio.Some? then aspectRatio.value * measuredWidth else measuredHeight)
  }
}
