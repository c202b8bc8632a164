/**
 The picture that the mark functions of img_util.py draw on: a canvas of a
 fixed size whose only observable change is the sequence of text-draw
 commands issued on it, and the outcome of a call that may raise.
 */
module Picture {

  /** The two fill colours the mark functions use. */
  datatype Colour = Blue | Red

  /** One `draw.text((x, y), text, font=font, fill=fill)` call, with the point size of its font. */
  datatype Draw = Draw(x: int, y: int, text: string, fill: Colour, fontSize: int)

  /** The Python exceptions the layout code can raise. */
  datatype Fault = ZeroDivisionError | IndexError

  /** How a mark call ends: it returns its `pic` argument, or raises. */
  datatype Outcome = Returned | Raised(fault: Fault)

  /**
   A canvas of `width` by `height` pixels (PIL's `pic.size`). Drawing text
   never resizes an image, so the size is fixed when the canvas is made. The
   pixels themselves are not modelled: `log` records every text draw in order.
   */
  class Canvas {
    const width: nat
    const height: nat
    var log: seq<Draw>

    /** A fresh canvas of the given size with nothing drawn on it. */
    constructor (w: nat, h: nat)
      ensures width == w && height == h && log == []
    {
      width, height, log := w, h, [];
    }

    /** `ImageDraw.Draw(pic).text(...)`: one more draw, the size unchanged. */
    method DrawText(x: int, y: int, text: string, fill: Colour, fontSize: int)
      modifies this`log
      ensures log == old(log) + [Draw(x, y, text, fill, fontSize)]
    {
      log := log + [Draw(x, y, text, fill, fontSize)];
    }
  }
}
