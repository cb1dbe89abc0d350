/** The display the text is drawn on, reduced to what the layout engine uses:
    text metrics (getTextBounds of Adafruit_GFX) and a record of what was
    drawn (setTextSize, setTextColor, setCursor followed by print). */
module Gfx {

  /** Width and height in pixels of a string as the current font renders it. */
  datatype Size = Size(w: nat, h: nat)

  /** Text metrics: the size of a string at a given text size. Deterministic
      and free of side effects; otherwise nothing is assumed of it. */
  type Metrics = (string, nat) -> Size

  /** One setCursor(x, y) followed by print(text). */
  datatype Print = Print(x: int, y: int, text: string)

  /** The drawing target: fixed metrics, the current text size and colour, and
      every line printed so far, in order. */
  class Display {
    const measure: Metrics
    var textSize: nat
    var color: nat
    var prints: seq<Print>

    /** A display with the given metrics, in the text size and colour it
        was left in, with nothing printed yet. */
    constructor (measure: Metrics, textSize: nat, color: nat)
      ensures this.measure == measure
      ensures this.textSize == textSize && this.color == color
      ensures prints == []
    {
      this.measure := measure;
      this.textSize := textSize;
      this.color := color;
      prints := [];
    }
  }

  /** A fixed-pitch font stand-in: every glyph is 6 by 8 pixels, scaled by the
      text size (12 by 16 pixels at text size 2). */
  function FixedPitch(s: string, size: nat): (sz: Size)
    ensures sz.w == 6 * size * |s|
  {
    Size(6 * size * |s|, 8 * size)
  }
}
