/**
 * The keys a value callback is registered under. Each key is a distinct
 * constant object compared by identity, so they are modelled as the
 * constructors of one enumeration.
 */
module Properties {

  datatype Property =
    | Color | StrokeColor | TransformOpacity | Opacity
    | TransformAnchorPoint | TransformPosition | TransformPositionX | TransformPositionY
    | EllipseSize | RectangleSize | CornerRadius | Position
    | TransformScale | TransformRotation | TransformSkew | TransformSkewAngle
    | StrokeWidth | TextTracking | RepeaterCopies | RepeaterOffset
    | PolystarPoints | PolystarRotation | PolystarInnerRadius | PolystarOuterRadius
    | PolystarInnerRoundedness | PolystarOuterRoundedness
    | TransformStartOpacity | TransformEndOpacity | TimeRemap | TextSize
    | ColorFilter | GradientColor
}
