# img_util text layout and file naming, modelled in Dafny

This project models the part of `cjml_utils/img_util.py` that makes integer and string decisions.

- **Text layout.** The three mark functions that print a list of texts onto an image are covered:
  - `mark_on_pic`: two columns, one (left, right) tuple per row.
  - `mark_on_pic4vin`: two rows in one column.
  - `mark_on_pic_for_struct`: one red column.

  Each one scans its entries for `max_len`. It then derives a font size and start coordinates from the image size with `//` and `min`, and draws the entries row by row, adding `gap_y` to `start_y` after each row.
- **File naming.** The file name is the text after the last separator, `s[s.rfind(sep) + 1:]`. The model also covers the path that `rotate_image`, `rotate_right_image` and `download_img` return or write to.

Modules:

- `Picture` (`picture.dfy`) holds the image as a `Canvas` class. Its `width` and `height` are constant fields, so no mark function can change the image size. Its `log` records every `draw.text` call in order: position, text, fill colour and font size. Python exceptions are an `Outcome`: `Returned` (the function returns its `pic`) or `Raised(ZeroDivisionError | IndexError)`.
- `TextLayout` (`text_layout.dfy`) holds the specification functions:
  - `MaxLength` is the scan.
  - `PairLayout`, `VinLayout` and `StructLayout` give the draws and the outcome of each mark function on a `w` by `h` image.
  - The lemmas prove what those layouts promise.
- `Mark` (`mark.dfy`) holds the mark functions themselves as methods with loops. Each method appends to `pic.log` exactly the draws its layout function gives and returns that layout's outcome. The draw loops sit in two helper methods, `DrawPairs` and `DrawColumn`.
- `FileNames` (`file_names.dfy`) holds `rfind`, the slice after the last separator, and the path rules of the rotate and download functions, all as functions.

Behaviour of the code that the model keeps:

- In `mark_on_pic` the scan runs over tuples, so `max_len` is the largest tuple arity, not a string length. With ordinary pairs the font size is `min(h // (n + 5), w // 3 // 2)`, however long the texts are (`PairFontIgnoresTextLength`).
- An empty list, or a list of empty tuples, makes `mark_on_pic` divide by zero at `w // 3 // max_len`, before anything is drawn.
- A row with fewer than two elements raises `IndexError` at the missing index. The draws made before it stay on the image, because PIL draws in place.
- `mark_on_pic4vin` takes `max_len` over all entries but draws only the first two. It divides by zero when every entry is empty. A one-entry list raises `IndexError` after drawing entry 0.
- `mark_on_pic_for_struct` never raises: all four of its divisors (`n + 5`, `max_len + 3`, `4` and `n + 2`) are positive.
- A font size of 0 is passed to `truetype` unchecked, so the model records it as it is.
- A URL without `/` gives the whole URL as the file name, since `rfind` returns -1 (`AfterLast`, `DownloadedFileNamedAfterUrl`).
- `download_img` with an empty `des_path` always raises: `os.path.exists('')` is false and `os.makedirs('')` raises `FileNotFoundError` before the `try`.
- Image sizes are non-negative, so Python's floor division `//` and Dafny's `/` agree on every operand here.

## Model

| member | source | states |
|---|---|---|
| `TextLayout.Min` | cjml_utils/img_util.py:75 | `min(gap_y, min_x)` is no larger than either candidate and equals one of them |
| `TextLayout.MaxLength` | cjml_utils/img_util.py:63-66 | `max_len` after the scan is at least the length of every entry and equals one entry's length; it is 0 for an empty list |
| `TextLayout.MaxLengthZero` | cjml_utils/img_util.py:63-66 | the scan gives 0 exactly when every entry is empty, which includes the empty list |
| `TextLayout.ScanMaxLength` | cjml_utils/img_util.py:63-66 | the scan loop (the same loop is at lines 93-96 and 112-116) computes `MaxLength`: an upper bound that is attained |
| `TextLayout.PairRows` | cjml_utils/img_util.py:77-80 | the pair draw loop ends by returning or by `IndexError`, never by `ZeroDivisionError` |
| `TextLayout.PairRowsLength` | cjml_utils/img_util.py:77-80 | the pair draw loop makes at most two draws per row |
| `TextLayout.PairLayout` | cjml_utils/img_util.py:63-80 | `mark_on_pic` raises `ZeroDivisionError` exactly when `max_len` is 0, and then draws nothing; it never draws more than two texts per row |
| `TextLayout.PairFont` | cjml_utils/img_util.py:68-75 | the font size of `mark_on_pic` is `h // (n + 5)` or `w // 3 // max_len`, whichever is smaller |
| `TextLayout.RowY` | cjml_utils/img_util.py:72-80 | the y of row k is the start y for row 0 and at least the start y when the gap is non-negative |
| `TextLayout.FirstShortRow` | cjml_utils/img_util.py:77-80 | the first row with fewer than two elements, or the row count: every earlier row is at least a pair |
| `TextLayout.PairRowsAt` | cjml_utils/img_util.py:77-80 | let row j be the first row with fewer than two elements. Rows before j are drawn as a blue left text at x 0 and a red right text at `gap_x`, at y = start + k·gap. Row j adds its single element if it has exactly one. The loop raises `IndexError` exactly when such a row j exists |
| `TextLayout.PairRowsBounds` | cjml_utils/img_util.py:77-80 | every y the pair loop draws lies between the first row's y and the last row's y; every x is 0 or `gap_x` |
| `TextLayout.PairLayoutOutcome` | cjml_utils/img_util.py:63-80 | `mark_on_pic` raises `ZeroDivisionError` (drawing nothing) exactly when no row has an element, an empty list included. It returns exactly when the list is non-empty and every row has at least two elements. In every other case it raises `IndexError` |
| `TextLayout.PairLayoutDraws` | cjml_utils/img_util.py:68-80 | when every one of the n rows has at least two elements, `mark_on_pic` returns after exactly 2n draws in list order. Row k's left text is blue at (0, h//(n+2) + k·(h//(n+5))) and its right text is red at (w//2, the same y). Every draw uses font size min(h//(n+5), w//3//max_len) |
| `TextLayout.PairFontIgnoresTextLength` | cjml_utils/img_util.py:63-75 | when every row is a pair, `max_len` is 2 and the font size is min(h//(n+5), w//3//2), independent of the string lengths |
| `TextLayout.PairLayoutInCanvas` | cjml_utils/img_util.py:69-80 | when h > 0, every draw of `mark_on_pic` starts inside the image (0 ≤ y < h, 0 ≤ x, and x < w when w > 0). This includes the draws made before an `IndexError` |
| `TextLayout.PairRowsInCanvas` | cjml_utils/img_util.py:70-80 | rows started at h//(n+2) and spaced by h//(n+5), with the right column at w//2, stay inside an image with h > 0 at any font size |
| `TextLayout.ThreePairsOn900By600` | cjml_utils/img_util.py:63-82 | three pairs on a 900×600 image give six draws at y 120, 195 and 270, at x 0 and 450, with font size 75 |
| `TextLayout.RowBound` | cjml_utils/img_util.py:70-72 | if a·(m+3) ≤ h, g·(m+6) ≤ h and h > 0, then a + m·g < h: the arithmetic that keeps the last row inside the image |
| `TextLayout.RowYInCanvas` | cjml_utils/img_util.py:70-72 | for n rows that start at h//(n+2) and advance by h//(n+5), every row k < n has 0 ≤ y < h when h > 0. The same start and gap are used at lines 119-122 |
| `TextLayout.VinLayout` | cjml_utils/img_util.py:93-107 | `mark_on_pic4vin` makes at most two draws, exactly two when it returns; draw i is entry i at x 0 |
| `TextLayout.VinLayoutOutcome` | cjml_utils/img_util.py:93-107 | `mark_on_pic4vin` raises `ZeroDivisionError` exactly when every entry is empty. It returns exactly when there are at least two entries and one of them is non-empty; it then has drawn entry 0 in blue at (0, h//3) and entry 1 in red at (0, h//3 + h//3), both at font size min(h//3, w//max_len). It raises `IndexError` only for a one-entry list, after drawing entry 0 |
| `TextLayout.VinLayoutInCanvas` | cjml_utils/img_util.py:98-107 | when h > 0, both rows of `mark_on_pic4vin` (h//3 and h//3 + h//3) start inside the image, at x 0 |
| `TextLayout.ColumnRows` | cjml_utils/img_util.py:127-129 | the column loop makes one draw per entry |
| `TextLayout.StructLayout` | cjml_utils/img_util.py:112-129 | `mark_on_pic_for_struct` never raises and draws each entry once, in red at x = w//4, entry i as draw i |
| `TextLayout.ColumnRowsAt` | cjml_utils/img_util.py:127-129 | the column loop draws each entry exactly once, in order: entry k in red at (x, start + k·gap) |
| `TextLayout.StructLayoutDraws` | cjml_utils/img_util.py:112-129 | `mark_on_pic_for_struct` draws n texts. Entry k is red at (w//4, h//(n+2) + k·(h//(n+5))), with font size min(h//(n+5), w//(max_len+3)). An empty list draws nothing |
| `TextLayout.StructLayoutInCanvas` | cjml_utils/img_util.py:118-129 | when h > 0, every draw of `mark_on_pic_for_struct` starts inside the image |
| `Mark.MarkOnPic` | cjml_utils/img_util.py:56-82 | appends exactly the `PairLayout` draws to the image's log and returns the `PairLayout` outcome; the image size stays the same |
| `Mark.MarkOnPic4Vin` | cjml_utils/img_util.py:85-108 | appends exactly the `VinLayout` draws and returns the `VinLayout` outcome |
| `Mark.MarkOnPicForStruct` | cjml_utils/img_util.py:111-131 | appends exactly the `StructLayout` draws and never raises |
| `Mark.DrawPairs` | cjml_utils/img_util.py:77-80 | the pair draw loop appends exactly the `PairRows` draws and ends with its outcome |
| `Mark.DrawColumn` | cjml_utils/img_util.py:127-129 | the column draw loop appends exactly the `ColumnRows` draws |
| `Picture.Canvas.DrawText` | cjml_utils/img_util.py:78-79 | one `draw.text` call adds exactly one draw record to the end of the log |
| `Picture.Canvas.constructor` | cjml_utils/img_util.py:42 | a fresh image of the given size with nothing drawn on it |
| `FileNames.RFind` | cjml_utils/img_util.py:143 | `rfind` returns the last index holding the separator, or -1 exactly when there is none |
| `FileNames.AfterLast` | cjml_utils/img_util.py:143 | `s[s.rfind(sep)+1:]` is a suffix of `s` with no separator in it. It is preceded by a separator when `s` has one, and it is all of `s` when `s` has none. It is empty exactly when `s` is empty or ends with the separator |
| `FileNames.ImageName` | cjml_utils/img_util.py:143 | the image name of a local path is its longest suffix without `\`, the whole path when it has no `\`; line 161 computes the same |
| `FileNames.UrlImageName` | cjml_utils/img_util.py:24 | the image name of a URL is its longest suffix without `/`, the whole URL when it has no `/` |
| `FileNames.RFindAppend` | cjml_utils/img_util.py:143 | appending separator-free text does not move the last separator |
| `FileNames.AfterLastAppend` | cjml_utils/img_util.py:143 | appending separator-free text extends the file name by that text |
| `FileNames.AfterLastOfJoin` | cjml_utils/img_util.py:143 | splitting `dir + sep + name` gives back `name` when `name` has no separator |
| `FileNames.SavedUnderOwnName` | cjml_utils/img_util.py:143-149 | putting a file name under a directory that is empty or ends with the separator keeps it as the file name |
| `FileNames.RotateImage` | cjml_utils/img_util.py:143-149 | `rotate_image` returns `des_dir` followed by the image name. It writes to that same path exactly when `des_dir != ''` |
| `FileNames.RotateRightImage` | cjml_utils/img_util.py:161-168 | `rotate_right_image` returns the same path as `rotate_image` and always writes to it |
| `FileNames.RotatedFileKeepsName` | cjml_utils/img_util.py:143-168 | when `des_dir` is empty or ends with `\`, the path the rotate functions return (and write to, when they write) has the source image's name |
| `FileNames.DownloadImg` | cjml_utils/img_util.py:20-33 | `download_img` raises from `os.makedirs` exactly when `des_path` is empty (always) or cannot be created; an empty `des_path` therefore never downloads. Otherwise it returns a path exactly when the request gives status 200 and the write succeeds, and that path is `des_path` followed by the URL's last segment; an exception inside the `try` or another status returns nothing |
| `FileNames.DownloadedFileNamedAfterUrl` | cjml_utils/img_util.py:20-28 | under a non-empty directory ending with `/`, a completed download is named by the URL's last segment. For a URL without `/`, that segment is the whole URL |

## Left out

- Pixels, glyph shapes and font loading (`ImageFont.truetype`, the `font/simsun.ttc` path) are not modelled: they belong to PIL. A draw is a record with the computed font size. An error from loading the font is not modelled.
- `imutils.rotate_bound` in `rotate_image`, `rotate_right_image` and `normalize_img` is left out. It is a foreign floating-point rotation, and its output size is not visible in this code. So the rotated image that the rotate functions return is not modelled; only their paths are.
- `cv2.imread`, `cv2.imwrite` and `cv2.resize` are left out: they are image codec and resampling libraries. A decode failure in `cv2.imread` is not modelled.
- `FileNames.DownloadImg`: whether a non-empty `des_path` exists or `os.makedirs` can create it is file-system state, so it enters as the parameter `dirReady`; only the empty path is decided by the model, as always raising `FileNotFoundError`. Which exception `os.makedirs` raises is not distinguished.
- In `download_img`, the HTTP request, `r.json()` and the file write are left out as I/O. Their results enter `DownloadImg` as parameters: the response status, or none when the request raised, and whether the write succeeded. The diagnostic `print` calls are left out.
- `compress_im` is left out: it computes its ratio with floating-point `pow`. That tuple-indexing expression computes the heuristic ratio even when a ratio is supplied.
- `improve_img_quality` is left out: it computes `900 / w` in floating point and truncates with `int()`.
- `merge_two_pic` (`np.vstack`) is left out as a thin wrapper over an unseen library.
- `generate_blank_image` is modelled only as the size of a new image (`Canvas.constructor`). Its white fill is not modelled.
- The `__main__` demo print is left out.
- `Mark.MarkOnPic`: entries are taken to be tuples of strings (`seq<string>`). Other sequences that Python would accept, such as a plain string, whose `[0]` is a character, are not modelled.
