/**
 The integer layout computed by the three mark functions of img_util.py:
 the maximum-length scan, the font size and start coordinates derived from
 the canvas size with floor division and `min`, and the draws each variant
 issues row by row. Canvas sizes are non-negative, so Python's `//` agrees
 with Dafny's `/` throughout.
 */
module TextLayout {
  import opened Picture

  function Min(a: int, b: int): (r: int)
    ensures r <= a && r <= b && (r == a || r == b)
  {
    if a <= b then a else b
  }

  // ---------------------------------------------------------------------
  // The maximum-length scan shared by the three mark functions
  // ---------------------------------------------------------------------

  /**
   The value of `max_len` after `for s in xs: if len(s) > max_len: max_len = len(s)`,
   starting from 0. For `mark_on_pic` the elements are tuples of strings, so
   this is the largest tuple arity; for the other two it is the longest string.
   */
  function MaxLength<T>(xs: seq<seq<T>>): (r: nat)
    ensures forall i :: 0 <= i < |xs| ==> |xs[i]| <= r
    ensures xs == [] ==> r == 0
    ensures xs != [] ==> exists i :: 0 <= i < |xs| && |xs[i]| == r
    decreases |xs|
  {
    if xs == [] then 0
    else
      var m := MaxLength(xs[..|xs| - 1]);
      assert forall i :: 0 <= i < |xs| - 1 ==> xs[..|xs| - 1][i] == xs[i];
      if |xs[|xs| - 1]| > m then |xs[|xs| - 1]| else m
  }

  /** The scan finds 0 exactly when every element is empty (so also for an empty list). */
  lemma MaxLengthZero<T>(xs: seq<seq<T>>)
    ensures MaxLength(xs) == 0 <==> forall i :: 0 <= i < |xs| ==> |xs[i]| == 0
  {
    if MaxLength(xs) == 0 {
      assert forall i :: 0 <= i < |xs| ==> |xs[i]| <= 0;
    }
  }

  /**
   The scan loop itself; by the contract of MaxLength its result bounds
   every length and is one of them (0 for an empty list).
   */
  method ScanMaxLength<T>(xs: seq<seq<T>>) returns (maxLen: nat)
    ensures maxLen == MaxLength(xs)
  {
    maxLen := 0;
    var i := 0;
    while i < |xs|
      invariant 0 <= i <= |xs|
      invariant maxLen == MaxLength(xs[..i])
    {
      assert xs[..i + 1][..i] == xs[..i];
      if |xs[i]| > maxLen {
        maxLen := |xs[i]|;
      }
      i := i + 1;
    }
    assert xs[..|xs|] == xs;
  }

  // ---------------------------------------------------------------------
  // mark_on_pic: two columns, one (left, right) tuple per row
  // ---------------------------------------------------------------------

  /** What a call draws, in order, and how it ends. */
  datatype Rendering = Rendering(draws: seq<Draw>, outcome: Outcome)

  /**
   The draw loop of `mark_on_pic` from the row at `y` on: `text[0]` in blue
   at x = 0, `text[1]` in red at x = `gapX`, then `start_y += gap_y`. A row
   with fewer than two elements raises IndexError at the first missing index,
   after whatever was already drawn.
   */
  function PairRows(rows: seq<seq<string>>, gapX: int, y: int, gapY: int, font: int): (r: Rendering)
    ensures r.outcome == Returned || r.outcome == Raised(IndexError)
    decreases |rows|
  {
    if rows == [] then Rendering([], Returned)
    else
      var row := rows[0];
      if |row| == 0 then Rendering([], Raised(IndexError))
      else if |row| == 1 then Rendering([Draw(0, y, row[0], Blue, font)], Raised(IndexError))
      else
        var rest := PairRows(rows[1..], gapX, y + gapY, gapY, font);
        Rendering([Draw(0, y, row[0], Blue, font), Draw(gapX, y, row[1], Red, font)] + rest.draws, rest.outcome)
  }

  /** The pair loop makes at most two draws per row. */
  lemma {:induction false} PairRowsLength(rows: seq<seq<string>>, gapX: int, y: int, gapY: int, font: int)
    ensures |PairRows(rows, gapX, y, gapY, font).draws| <= 2 * |rows|
    decreases |rows|
  {
    if rows != [] && |rows[0]| >= 2 {
      PairRowsLength(rows[1..], gapX, y + gapY, gapY, font);
    }
  }

  /**
   `mark_on_pic` on a `w` by `h` canvas: `min_x = w // 3 // max_len` divides by
   zero when no row has an element; otherwise the rows are drawn from
   `start_y = h // (n + 2)` with gap `h // (n + 5)` at font size
   `min(gap_y, min_x)`, the right column at `w // 2`.
   */
  function PairLayout(rows: seq<seq<string>>, w: nat, h: nat): (r: Rendering)
    ensures r.outcome == Raised(ZeroDivisionError) <==> MaxLength(rows) == 0
    ensures r.outcome == Raised(ZeroDivisionError) ==> r.draws == []
    ensures |r.draws| <= 2 * |rows|
  {
    var maxLen := MaxLength(rows);
    if maxLen == 0 then Rendering([], Raised(ZeroDivisionError))
    else
      var n := |rows|;
      PairRowsLength(rows, w / 2, h / (n + 2), h / (n + 5), Min(h / (n + 5), w / 3 / maxLen));
      PairRows(rows, w / 2, h / (n + 2), h / (n + 5), Min(h / (n + 5), w / 3 / maxLen))
  }

  /** The font size `mark_on_pic` uses (meaningful when `max_len > 0`). */
  function PairFont(rows: seq<seq<string>>, w: nat, h: nat): (f: int)
    requires MaxLength(rows) > 0
    ensures f <= h / (|rows| + 5) && f <= w / 3 / MaxLength(rows)
    ensures f == h / (|rows| + 5) || f == w / 3 / MaxLength(rows)
  {
    Min(h / (|rows| + 5), w / 3 / MaxLength(rows))
  }

  /** The y of row `k` when rows start at `y` and advance by `gapY`. */
  function RowY(y: int, gapY: int, k: nat): (r: int)
    ensures k == 0 ==> r == y
    ensures gapY >= 0 ==> y <= r
  {
    assert gapY >= 0 ==> k * gapY >= 0;
    y + k * gapY
  }

  /**
   Closed form of the draw loop: if rows 0..j-1 are at least pairs and row j
   (if any) is not, then rows 0..j-1 are each drawn as a blue-left, red-right
   pair at their row's y, row j contributes its one element (if it has one),
   and the loop returns exactly when every row was a pair.
   */
  lemma {:induction false} PairRowsAt(rows: seq<seq<string>>, gapX: int, y: int, gapY: int, font: int, j: nat)
    requires j <= |rows|
    requires forall i :: 0 <= i < j ==> |rows[i]| >= 2
    requires j < |rows| ==> |rows[j]| < 2
    ensures var r := PairRows(rows, gapX, y, gapY, font);
      && (r.outcome == Returned <==> j == |rows|)
      && (r.outcome != Returned ==> r.outcome == Raised(IndexError))
      && |r.draws| == 2 * j + (if j < |rows| then |rows[j]| else 0)
      && (forall k :: 0 <= k < j ==>
            r.draws[2 * k] == Draw(0, RowY(y, gapY, k), rows[k][0], Blue, font) &&
            r.draws[2 * k + 1] == Draw(gapX, RowY(y, gapY, k), rows[k][1], Red, font))
      && (j < |rows| && |rows[j]| == 1 ==> r.draws[2 * j] == Draw(0, RowY(y, gapY, j), rows[j][0], Blue, font))
    decreases |rows|
  {
    if rows == [] {
    } else if j == 0 {
    } else {
      var tail := rows[1..];
      PairRowsAt(tail, gapX, y + gapY, gapY, font, j - 1);
      var rest := PairRows(tail, gapX, y + gapY, gapY, font);
      var r := PairRows(rows, gapX, y, gapY, font);
      assert r.draws == [Draw(0, y, rows[0][0], Blue, font), Draw(gapX, y, rows[0][1], Red, font)] + rest.draws;
      forall k | 1 <= k <= j
        ensures RowY(y, gapY, k) == RowY(y + gapY, gapY, k - 1)
      {
        assert k * gapY == (k - 1) * gapY + gapY;
      }
      forall k | 1 <= k < j
        ensures r.draws[2 * k] == Draw(0, RowY(y, gapY, k), rows[k][0], Blue, font)
        ensures r.draws[2 * k + 1] == Draw(gapX, RowY(y, gapY, k), rows[k][1], Red, font)
      {
        assert r.draws[2 * k] == rest.draws[2 * (k - 1)];
        assert r.draws[2 * k + 1] == rest.draws[2 * (k - 1) + 1];
        assert rows[k] == tail[k - 1];
      }
      if j < |rows| && |rows[j]| == 1 {
        assert r.draws[2 * j] == rest.draws[2 * (j - 1)];
        assert rows[j] == tail[j - 1];
      }
    }
  }

  /** Every draw in `ds` starts at a y in [lo, hi] and at x = 0 or x = `gapX`. */
  predicate DrawsWithin(ds: seq<Draw>, lo: int, hi: int, gapX: int)
  {
    forall i :: 0 <= i < |ds| ==> lo <= ds[i].y <= hi && (ds[i].x == 0 || ds[i].x == gapX)
  }

  /** Every y drawn lies between the first row's and the last row's. */
  lemma {:induction false} PairRowsBounds(rows: seq<seq<string>>, gapX: int, y: int, gapY: int, font: int)
    requires gapY >= 0 && rows != []
    ensures DrawsWithin(PairRows(rows, gapX, y, gapY, font).draws, y, RowY(y, gapY, |rows| - 1), gapX)
    decreases |rows|
  {
    var r := PairRows(rows, gapX, y, gapY, font);
    var last := RowY(y, gapY, |rows| - 1);
    assert y <= last;
    if |rows[0]| >= 2 && |rows| >= 2 {
      var rest := PairRows(rows[1..], gapX, y + gapY, gapY, font);
      PairRowsBounds(rows[1..], gapX, y + gapY, gapY, font);
      assert RowY(y + gapY, gapY, |rows| - 2) == last by {
        assert (|rows| - 1) * gapY == (|rows| - 2) * gapY + gapY;
      }
      assert r.draws == [Draw(0, y, rows[0][0], Blue, font), Draw(gapX, y, rows[0][1], Red, font)] + rest.draws;
      forall i | 2 <= i < |r.draws|
        ensures r.draws[i] == rest.draws[i - 2]
      {
      }
    } else if |rows[0]| >= 2 {
      assert PairRows(rows[1..], gapX, y + gapY, gapY, font).draws == [];
    }
  }

  /**
   The three ways `mark_on_pic` ends: ZeroDivisionError exactly when no row
   has an element (in particular for an empty list), normal return exactly
   when there is at least one row and every row is at least a pair,
   IndexError otherwise.
   */
  lemma PairLayoutOutcome(rows: seq<seq<string>>, w: nat, h: nat)
    ensures var r := PairLayout(rows, w, h);
      && (r.outcome == Raised(ZeroDivisionError) <==> forall i :: 0 <= i < |rows| ==> |rows[i]| == 0)
      && (r.outcome == Returned <==> rows != [] && forall i :: 0 <= i < |rows| ==> |rows[i]| >= 2)
      && (r.outcome == Raised(ZeroDivisionError) ==> r.draws == [])
  {
    MaxLengthZero(rows);
    if MaxLength(rows) > 0 {
      var j := FirstShortRow(rows);
      var n := |rows|;
      PairRowsAt(rows, w / 2, h / (n + 2), h / (n + 5), PairFont(rows, w, h), j);
    }
  }

  /** The index of the first row with fewer than two elements, or the row count. */
  function FirstShortRow(rows: seq<seq<string>>): (j: nat)
    ensures j <= |rows|
    ensures forall i :: 0 <= i < j ==> |rows[i]| >= 2
    ensures j < |rows| ==> |rows[j]| < 2
    decreases |rows|
  {
    if rows == [] || |rows[0]| < 2 then 0
    else
      var j := FirstShortRow(rows[1..]);
      assert forall i :: 1 <= i < j + 1 ==> rows[i] == rows[1..][i - 1];
      j + 1
  }

  /**
   When every one of the n rows is at least a pair, `mark_on_pic` returns
   after exactly 2n draws in list order: row k's left text in blue at
   (0, h // (n + 2) + k * (h // (n + 5))) and its right text in red at
   (w // 2, the same y), all at font size min(h // (n + 5), w // 3 // max_len).
   */
  lemma PairLayoutDraws(rows: seq<seq<string>>, w: nat, h: nat)
    requires rows != [] && forall i :: 0 <= i < |rows| ==> |rows[i]| >= 2
    ensures var r := PairLayout(rows, w, h);
      var n := |rows|;
      var font := Min(h / (n + 5), w / 3 / MaxLength(rows));
      && r.outcome == Returned
      && |r.draws| == 2 * n
      && forall k :: 0 <= k < n ==>
           r.draws[2 * k] == Draw(0, h / (n + 2) + k * (h / (n + 5)), rows[k][0], Blue, font) &&
           r.draws[2 * k + 1] == Draw(w / 2, h / (n + 2) + k * (h / (n + 5)), rows[k][1], Red, font)
  {
    var n := |rows|;
    assert |rows[0]| <= MaxLength(rows);
    PairRowsAt(rows, w / 2, h / (n + 2), h / (n + 5), PairFont(rows, w, h), n);
  }

  /**
   `max_len` is scanned over tuples, so when every row is a pair the font
   size is min(h // (n + 5), w // 3 // 2) however long the strings are.
   */
  lemma PairFontIgnoresTextLength(rows: seq<seq<string>>, w: nat, h: nat)
    requires rows != [] && forall i :: 0 <= i < |rows| ==> |rows[i]| == 2
    ensures MaxLength(rows) == 2
    ensures PairFont(rows, w, h) == Min(h / (|rows| + 5), w / 3 / 2)
  {
    assert |rows[0]| <= MaxLength(rows);
  }

  /** Every draw in `ds` starts inside a `w` by `h` canvas (x < w only asked of a non-empty width). */
  predicate InCanvas(ds: seq<Draw>, w: nat, h: nat)
  {
    forall i :: 0 <= i < |ds| ==> 0 <= ds[i].y < h && 0 <= ds[i].x && (w > 0 ==> ds[i].x < w)
  }

  /**
   For a non-degenerate canvas every text `mark_on_pic` draws, including
   the ones drawn before an IndexError, starts inside it.
   */
  lemma PairLayoutInCanvas(rows: seq<seq<string>>, w: nat, h: nat)
    requires h > 0
    ensures InCanvas(PairLayout(rows, w, h).draws, w, h)
  {
    if MaxLength(rows) > 0 {
      var n := |rows|;
      assert PairLayout(rows, w, h).draws == PairRows(rows, w / 2, h / (n + 2), h / (n + 5), PairFont(rows, w, h)).draws;
      PairRowsInCanvas(rows, w, h, PairFont(rows, w, h));
    }
  }

  /** The pair loop, laid out as `mark_on_pic` lays it out, stays inside the canvas at any font size. */
  lemma PairRowsInCanvas(rows: seq<seq<string>>, w: nat, h: nat, font: int)
    requires h > 0 && rows != []
    ensures InCanvas(PairRows(rows, w / 2, h / (|rows| + 2), h / (|rows| + 5), font).draws, w, h)
  {
    var n := |rows|;
    var a, g := h / (n + 2), h / (n + 5);
    var ds := PairRows(rows, w / 2, a, g, font).draws;
    PairRowsBounds(rows, w / 2, a, g, font);
    RowYInCanvas(n, n - 1, h);
    HalfInside(w);
    WithinIsInCanvas(ds, a, RowY(a, g, n - 1), w / 2, w, h);
  }

  /** Draws between two in-canvas rows, in two in-canvas columns, are in the canvas. */
  lemma WithinIsInCanvas(ds: seq<Draw>, lo: int, hi: int, gapX: int, w: nat, h: nat)
    requires DrawsWithin(ds, lo, hi, gapX)
    requires 0 <= lo && hi < h && 0 <= gapX && (w > 0 ==> gapX < w)
    ensures InCanvas(ds, w, h)
  {
  }

  /** The right column starts inside a non-empty width. */
  lemma HalfInside(w: nat)
    ensures 0 <= w / 2 && (w > 0 ==> w / 2 < w)
  {
  }

  /**
   Three pairs on a 900 by 600 canvas: gap 600 // 8 = 75, first row at
   600 // 5 = 120, right column at 450, font min(75, 900 // 3 // 2) = 75,
   and six draws.
   */
  lemma ThreePairsOn900By600()
    ensures PairLayout([["A1", "B1"], ["A2", "B2"], ["A3", "B3"]], 900, 600) ==
      Rendering([Draw(0, 120, "A1", Blue, 75), Draw(450, 120, "B1", Red, 75),
                 Draw(0, 195, "A2", Blue, 75), Draw(450, 195, "B2", Red, 75),
                 Draw(0, 270, "A3", Blue, 75), Draw(450, 270, "B3", Red, 75)], Returned)
  {
    var rows := [["A1", "B1"], ["A2", "B2"], ["A3", "B3"]];
    PairFontIgnoresTextLength(rows, 900, 600);
    assert PairLayout(rows, 900, 600) == PairRows(rows, 450, 120, 75, 75);
    assert rows[1..] == [["A2", "B2"], ["A3", "B3"]] && rows[1..][1..] == [["A3", "B3"]];
    var third := PairRows([["A3", "B3"]], 450, 270, 75, 75);
    assert third == Rendering([Draw(0, 270, "A3", Blue, 75), Draw(450, 270, "B3", Red, 75)], Returned);
    var second := PairRows([["A2", "B2"], ["A3", "B3"]], 450, 195, 75, 75);
    assert second == Rendering([Draw(0, 195, "A2", Blue, 75), Draw(450, 195, "B2", Red, 75)] + third.draws, Returned);
  }

  // ---------------------------------------------------------------------
  // The row-position bound shared by the list layouts
  // ---------------------------------------------------------------------

  /** A product is monotone in its first factor when the other is non-negative. */
  lemma MulLeMul(a: int, b: int, c: int)
    requires a <= b && c >= 0
    ensures a * c <= b * c
  {
  }

  /**
   The arithmetic behind the row bound: if a * (m + 3) <= h and
   g * (m + 6) <= h for non-negative a, g, m and h > 0, then a + m * g < h.
   */
  lemma RowBound(a: nat, g: nat, m: nat, h: nat)
    requires h > 0 && a * (m + 3) <= h && g * (m + 6) <= h
    ensures a + m * g < h
  {
    var p, q := a * (m + 3), g * (m + 6);
    assert p == 3 * a + a * m;
    assert 3 * a <= p;
    MulLeMul(q, h, m);
    if a + m * g >= h {
      MulLeMul(h, a + m * g, m + 6);
      assert false;
    }
  }

  /** Division by a positive divisor rounds down. */
  lemma DivMulLe(h: nat, d: nat)
    requires d > 0
    ensures (h / d) * d <= h
  {
  }

  /**
   For n rows starting at h // (n + 2) and advancing by h // (n + 5), every
   row k < n starts strictly above the bottom edge of a canvas of height h > 0:
   h // (n + 2) + (n - 1) * (h // (n + 5)) < h.
   */
  lemma RowYInCanvas(n: nat, k: nat, h: nat)
    requires h > 0 && k < n
    ensures 0 <= RowY(h / (n + 2), h / (n + 5), k) < h
  {
    var a, g := h / (n + 2), h / (n + 5);
    DivMulLe(h, n + 2);
    DivMulLe(h, n + 5);
    RowBound(a, g, n - 1, h);
    MulLeMul(k, n - 1, g);
    assert 0 <= k * g;
  }

  // ---------------------------------------------------------------------
  // mark_on_pic4vin: exactly two rows in one column
  // ---------------------------------------------------------------------

  /**
   `mark_on_pic4vin` on a `w` by `h` canvas: `min_x = w // max_len` divides by
   zero when every string is empty (or there is none); otherwise
   `text_list[0]` is drawn in blue at (0, h // 3) and `text_list[1]` in red at
   (0, h // 3 + h // 3), both at font size min(h // 3, w // max_len); a
   one-element list raises IndexError after the first draw. Entries after the
   second count towards `max_len` but are not drawn.
   */
  function VinLayout(texts: seq<string>, w: nat, h: nat): (r: Rendering)
    ensures |r.draws| <= 2 && (r.outcome == Returned ==> |r.draws| == 2)
    ensures forall i :: 0 <= i < |r.draws| ==> i < |texts| && r.draws[i].x == 0 && r.draws[i].text == texts[i]
  {
    var maxLen := MaxLength(texts);
    if maxLen == 0 then Rendering([], Raised(ZeroDivisionError))
    else
      var gapY, startY := h / 3, h / 3;
      var font := Min(gapY, w / maxLen);
      var first := Draw(0, startY, texts[0], Blue, font);
      if |texts| < 2 then Rendering([first], Raised(IndexError))
      else Rendering([first, Draw(0, startY + gapY, texts[1], Red, font)], Returned)
  }

  /**
   The ways `mark_on_pic4vin` ends: it returns exactly when there are at
   least two entries and one of them is non-empty, and then it has drawn
   exactly two texts, entries 0 and 1 in that order, in blue then red.
   */
  lemma VinLayoutOutcome(texts: seq<string>, w: nat, h: nat)
    ensures var r := VinLayout(texts, w, h);
      && (r.outcome == Raised(ZeroDivisionError) <==> forall i :: 0 <= i < |texts| ==> |texts[i]| == 0)
      && (r.outcome == Returned <==> |texts| >= 2 && exists i :: 0 <= i < |texts| && |texts[i]| > 0)
      && (r.outcome == Raised(IndexError) ==> |texts| == 1 && |r.draws| == 1 && r.draws[0].text == texts[0])
      && (r.outcome == Returned ==>
            |r.draws| == 2 && r.draws[0].text == texts[0] && r.draws[1].text == texts[1] &&
            r.draws[0].fill == Blue && r.draws[1].fill == Red &&
            r.draws[0].fontSize == r.draws[1].fontSize == Min(h / 3, w / MaxLength(texts)) &&
            r.draws == [Draw(0, h / 3, texts[0], Blue, Min(h / 3, w / MaxLength(texts))),
                        Draw(0, h / 3 + h / 3, texts[1], Red, Min(h / 3, w / MaxLength(texts)))])
  {
    MaxLengthZero(texts);
  }

  /** Both rows of `mark_on_pic4vin` start inside a canvas of height h > 0, at x = 0. */
  lemma VinLayoutInCanvas(texts: seq<string>, w: nat, h: nat)
    requires h > 0
    ensures InCanvas(VinLayout(texts, w, h).draws, w, h)
    ensures forall i :: 0 <= i < |VinLayout(texts, w, h).draws| ==> VinLayout(texts, w, h).draws[i].x == 0
  {
  }

  // ---------------------------------------------------------------------
  // mark_on_pic_for_struct: one red column
  // ---------------------------------------------------------------------

  /** The draw loop of `mark_on_pic_for_struct` from the entry at `y` on. */
  function ColumnRows(texts: seq<string>, x: int, y: int, gapY: int, font: int): (r: seq<Draw>)
    ensures |r| == |texts|
    decreases |texts|
  {
    if texts == [] then []
    else [Draw(x, y, texts[0], Red, font)] + ColumnRows(texts[1..], x, y + gapY, gapY, font)
  }

  /**
   `mark_on_pic_for_struct` on a `w` by `h` canvas. All four divisors
   (`n + 5`, `max_len + 3`, `4`, `n + 2`) are positive, so it never raises.
   */
  function StructLayout(texts: seq<string>, w: nat, h: nat): (r: seq<Draw>)
    ensures |r| == |texts|
    ensures forall i :: 0 <= i < |r| ==> r[i].x == w / 4 && r[i].text == texts[i] && r[i].fill == Red
  {
    var n := |texts|;
    var font := Min(h / (n + 5), w / (MaxLength(texts) + 3));
    ColumnRowsAt(texts, w / 4, h / (n + 2), h / (n + 5), font);
    ColumnRows(texts, w / 4, h / (n + 2), h / (n + 5), font)
  }

  /** Closed form of the column loop: entry k is drawn in red at (x, y + k * gapY). */
  lemma {:induction false} ColumnRowsAt(texts: seq<string>, x: int, y: int, gapY: int, font: int)
    ensures var r := ColumnRows(texts, x, y, gapY, font);
      |r| == |texts| &&
      forall k :: 0 <= k < |texts| ==> r[k] == Draw(x, RowY(y, gapY, k), texts[k], Red, font)
    decreases |texts|
  {
    if texts != [] {
      var tail := texts[1..];
      ColumnRowsAt(tail, x, y + gapY, gapY, font);
      var r := ColumnRows(texts, x, y, gapY, font);
      forall k | 1 <= k < |texts|
        ensures r[k] == Draw(x, RowY(y, gapY, k), texts[k], Red, font)
      {
        assert k * gapY == (k - 1) * gapY + gapY;
        assert r[k] == ColumnRows(tail, x, y + gapY, gapY, font)[k - 1];
        assert texts[k] == tail[k - 1];
      }
    }
  }

  /**
   `mark_on_pic_for_struct` draws every entry once, in list order, in red at
   x = w // 4, at y = h // (n + 2) + k * (h // (n + 5)), all at font size
   min(h // (n + 5), w // (max_len + 3)); an empty list draws nothing.
   */
  lemma StructLayoutDraws(texts: seq<string>, w: nat, h: nat)
    ensures var r := StructLayout(texts, w, h);
      var n := |texts|;
      && |r| == n
      && (texts == [] ==> r == [])
      && forall k :: 0 <= k < n ==>
           r[k] == Draw(w / 4, h / (n + 2) + k * (h / (n + 5)), texts[k], Red,
                        Min(h / (n + 5), w / (MaxLength(texts) + 3)))
  {
    var n := |texts|;
    ColumnRowsAt(texts, w / 4, h / (n + 2), h / (n + 5), Min(h / (n + 5), w / (MaxLength(texts) + 3)));
  }

  /** Every text `mark_on_pic_for_struct` draws starts inside a canvas of height h > 0. */
  lemma StructLayoutInCanvas(texts: seq<string>, w: nat, h: nat)
    requires h > 0
    ensures InCanvas(StructLayout(texts, w, h), w, h)
  {
    var r := StructLayout(texts, w, h);
    var n := |texts|;
    StructLayoutDraws(texts, w, h);
    forall i | 0 <= i < |r|
      ensures 0 <= r[i].y < h
    {
      RowYInCanvas(n, i, h);
    }
  }
}
