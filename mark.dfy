/**
 The three mark functions of img_util.py as methods that draw on a canvas:
 each scans for `max_len`, derives the font size and start coordinates, and
 draws row by row, advancing `start_y` by `gap_y`. A call that raises keeps
 the draws made before the exception, since PIL draws on `pic` in place.
 */
module Mark {
  import opened Picture
  import opened TextLayout

  /**
   `mark_on_pic(text_list, pic)`: one (left, right) tuple per row, left in
   blue at x = 0, right in red at x = w // 2.
   */
  method MarkOnPic(textList: seq<seq<string>>, pic: Canvas) returns (outcome: Outcome)
    modifies pic`log
    ensures pic.log == old(pic.log) + PairLayout(textList, pic.width, pic.height).draws
    ensures outcome == PairLayout(textList, pic.width, pic.height).outcome
  {
    var maxLen := ScanMaxLength(textList);
    var w: int, h: int := pic.width, pic.height;
    var rowSlots: int, startSlots: int := |textList| + 5, |textList| + 2;
    var gapX: int := w / 2;
    var gapY: int := h / rowSlots;
    if maxLen == 0 {
      return Raised(ZeroDivisionError);
    }
    var third: int := w / 3;
    var minX: int := third / maxLen;
    var startY: int := h / startSlots;
    var font: int := Min(gapY, minX);
    assert PairLayout(textList, w, h) == PairRows(textList, gapX, startY, gapY, font);
    outcome := DrawPairs(pic, textList, gapX, startY, gapY, font);
  }

  /**
   `mark_on_pic4vin(text_list, pic)`: `text_list[0]` in blue and
   `text_list[1]` in red, one third and two thirds of the way down.
   */
  method MarkOnPic4Vin(textList: seq<string>, pic: Canvas) returns (outcome: Outcome)
    modifies pic`log
    ensures pic.log == old(pic.log) + VinLayout(textList, pic.width, pic.height).draws
    ensures outcome == VinLayout(textList, pic.width, pic.height).outcome
  {
    var maxLen := ScanMaxLength(textList);
    var w: int, h: int := pic.width, pic.height;
    var gapY: int := h / 3;
    if maxLen == 0 {
      return Raised(ZeroDivisionError);
    }
    var minX: int := w / maxLen;
    var startY: int := h / 3;
    var font: int := Min(gapY, minX);
    pic.DrawText(0, startY, textList[0], Blue, font);
    if |textList| < 2 {
      return Raised(IndexError);
    }
    pic.DrawText(0, startY + gapY, textList[1], Red, font);
    return Returned;
  }

  /**
   `mark_on_pic_for_struct(text_list, pic)`: one red column at x = w // 4.
   It never raises.
   */
  method MarkOnPicForStruct(textList: seq<string>, pic: Canvas)
    modifies pic`log
    ensures pic.log == old(pic.log) + StructLayout(textList, pic.width, pic.height)
  {
    var maxLen := ScanMaxLength(textList);
    var w: int, h: int := pic.width, pic.height;
    var rowSlots: int, startSlots: int, columnSlots: int := |textList| + 5, |textList| + 2, maxLen + 3;
    var gapY: int := h / rowSlots;
    var minX: int := w / columnSlots;
    var startX: int := w / 4;
    var startY: int := h / startSlots;
    var font: int := Min(gapY, minX);
    assert StructLayout(textList, w, h) == ColumnRows(textList, startX, startY, gapY, font);
    DrawColumn(pic, textList, startX, startY, gapY, font);
  }

  /**
   The draw loop of `mark_on_pic`: for each row, `text[0]` in blue at
   (0, start_y), `text[1]` in red at (gapX, start_y), then
   `start_y += gap_y`; a row too short for an index raises IndexError.
   */
  method DrawPairs(pic: Canvas, textList: seq<seq<string>>, gapX: int, y: int, gapY: int, font: int)
    returns (outcome: Outcome)
    modifies pic`log
    ensures pic.log == old(pic.log) + PairRows(textList, gapX, y, gapY, font).draws
    ensures outcome == PairRows(textList, gapX, y, gapY, font).outcome
  {
    var startY: int := y;
    ghost var whole := PairRows(textList, gapX, y, gapY, font);
    ghost var drawn: seq<Draw> := [];
    var i := 0;
    assert textList[i..] == textList;
    while i < |textList|
      invariant 0 <= i <= |textList|
      invariant pic.log == old(pic.log) + drawn
      invariant whole.draws == drawn + PairRows(textList[i..], gapX, startY, gapY, font).draws
      invariant whole.outcome == PairRows(textList[i..], gapX, startY, gapY, font).outcome
    {
      var text := textList[i];
      ghost var here := PairRows(textList[i..], gapX, startY, gapY, font);
      assert textList[i..][0] == text && textList[i..][1..] == textList[i + 1..];
      if |text| == 0 {
        assert here == Rendering([], Raised(IndexError));
        return Raised(IndexError);
      }
      var left := Draw(0, startY, text[0], Blue, font);
      pic.DrawText(0, startY, text[0], Blue, font);
      drawn := drawn + [left];
      if |text| == 1 {
        assert here == Rendering([left], Raised(IndexError));
        return Raised(IndexError);
      }
      var right := Draw(gapX, startY, text[1], Red, font);
      ghost var rest := PairRows(textList[i + 1..], gapX, startY + gapY, gapY, font);
      assert here == Rendering([left, right] + rest.draws, rest.outcome);
      pic.DrawText(gapX, startY, text[1], Red, font);
      drawn := drawn + [right];
      assert whole.draws == drawn + rest.draws;
      startY := startY + gapY;
      i := i + 1;
    }
    return Returned;
  }

  /**
   The draw loop of `mark_on_pic_for_struct`: each text in red at
   (x, start_y), then `start_y += gap_y`.
   */
  method DrawColumn(pic: Canvas, textList: seq<string>, x: int, y: int, gapY: int, font: int)
    modifies pic`log
    ensures pic.log == old(pic.log) + ColumnRows(textList, x, y, gapY, font)
  {
    var startY: int := y;
    ghost var whole := ColumnRows(textList, x, y, gapY, font);
    ghost var drawn: seq<Draw> := [];
    var i := 0;
    assert textList[i..] == textList;
    while i < |textList|
      invariant 0 <= i <= |textList|
      invariant pic.log == old(pic.log) + drawn
      invariant whole == drawn + ColumnRows(textList[i..], x, startY, gapY, font)
    {
      assert textList[i..][0] == textList[i] && textList[i..][1..] == textList[i + 1..];
      pic.DrawText(x, startY, textList[i], Red, font);
      drawn := drawn + [Draw(x, startY, textList[i], Red, font)];
      startY := startY + gapY;
      i := i + 1;
    }
  }
}
