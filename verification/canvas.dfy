/**
  The drawing side of the layout: every `ctx.fillText` becomes a `Draw`
  record holding the text, the opacity of the fill style in force and the
  vertical position. All text of the image is drawn at x = 50, so the
  horizontal position is not recorded.
 */
module Canvas {

  /** Vertical distance between consecutive lines of the title and of the content (`lineHeight`). */
  const LineHeight: int := 30

  /** The fill style `#333` with no transparency. */
  const Opaque: real := 1.0

  datatype Draw = Draw(text: string, opacity: real, y: int)

  /** Lines drawn fully opaque one below the other: line `k` at `top + k * LineHeight`. */
  function Placed(lines: seq<string>, top: int): seq<Draw>
  {
    seq(|lines|, k requires 0 <= k < |lines| => Draw(lines[k], Opaque, top + k * LineHeight))
  }
}
