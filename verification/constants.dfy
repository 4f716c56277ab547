/** The numeric defaults of src/lib/constants.ts (`DEFAULT_VALUES`). */
module Constants {

  const ElementWidth: real := 120.0
  const ElementHeight: real := 40.0
  const TextWidth: real := 200.0
  const FontSize: real := 16.0
  const SvgSize: real := 32.0
  const CanvasWidth: real := 500.0
  const CanvasHeight: real := 500.0
  /** Also used as the margin kept between a new element and the canvas edge. */
  const MinElementSize: real := 10.0
  const MaxElementSize: real := 800.0
}
