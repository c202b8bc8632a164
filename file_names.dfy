/**
 The path logic of img_util.py: the file name taken as the text after the
 last separator (`s[s.rfind(sep) + 1:]`), with `\` for local image paths in
 `rotate_image` and `rotate_right_image` and `/` for URLs in `download_img`,
 and the path each of those functions returns and writes to.
 */
module FileNames {

  datatype Option<T> = None | Some(value: T)

  /** The separator `rotate_image` and `rotate_right_image` split image paths on. */
  const WindowsSeparator: char := '\\'

  /** The separator `download_img` splits URLs on. */
  const UrlSeparator: char := '/'

  /** Python's `s.rfind(sep)`: the highest index holding `sep`, or -1 when there is none. */
  function RFind(s: string, sep: char): (r: int)
    ensures -1 <= r < |s|
    ensures r == -1 <==> sep !in s
    ensures 0 <= r ==> s[r] == sep
    ensures forall j :: r < j < |s| ==> s[j] != sep
    decreases |s|
  {
    if |s| == 0 then -1
    else if s[|s| - 1] == sep then |s| - 1
    else RFind(s[..|s| - 1], sep)
  }

  /**
   `s[s.rfind(sep) + 1:]`: the longest suffix of `s` free of `sep`. It is
   preceded by `sep` when `s` holds one, it is all of `s` when `s` holds
   none, and it is empty exactly when `s` is empty or ends in `sep`.
   */
  function AfterLast(s: string, sep: char): (r: string)
    ensures |r| <= |s| && s[|s| - |r|..] == r
    ensures sep !in r
    ensures sep in s ==> s[|s| - |r| - 1] == sep
    ensures sep !in s ==> r == s
    ensures r == [] <==> s == [] || s[|s| - 1] == sep
  {
    s[RFind(s, sep) + 1..]
  }

  /** The image name `rotate_image` and `rotate_right_image` take from `image_path`. */
  function ImageName(imagePath: string): (r: string)
    ensures WindowsSeparator !in r
    ensures |r| <= |imagePath| && imagePath[|imagePath| - |r|..] == r
    ensures WindowsSeparator !in imagePath ==> r == imagePath
  {
    AfterLast(imagePath, WindowsSeparator)
  }

  /** The image name `download_img` takes from `url`. */
  function UrlImageName(url: string): (r: string)
    ensures UrlSeparator !in r
    ensures |r| <= |url| && url[|url| - |r|..] == r
    ensures UrlSeparator !in url ==> r == url
  {
    AfterLast(url, UrlSeparator)
  }

  /** Text without the separator added at the end does not move the last separator. */
  lemma {:induction false} RFindAppend(a: string, b: string, sep: char)
    requires sep !in b
    ensures RFind(a + b, sep) == RFind(a, sep)
    decreases |b|
  {
    if b != [] {
      var c := b[..|b| - 1];
      assert (a + b)[..|a + b| - 1] == a + c;
      assert (a + b)[|a + b| - 1] == b[|b| - 1];
      RFindAppend(a, c, sep);
    } else {
      assert a + b == a;
    }
  }

  /** Appending text free of the separator extends the name by that text. */
  lemma AfterLastAppend(a: string, b: string, sep: char)
    requires sep !in b
    ensures AfterLast(a + b, sep) == AfterLast(a, sep) + b
  {
    RFindAppend(a, b, sep);
    var k := RFind(a, sep) + 1;
    assert (a + b)[k..] == a[k..] + b;
  }

  /** Splitting `dir + sep + name` gives back `name` whenever `name` has no separator. */
  lemma AfterLastOfJoin(dir: string, name: string, sep: char)
    requires sep !in name
    ensures AfterLast(dir + [sep] + name, sep) == name
  {
    AfterLastAppend(dir + [sep], name, sep);
  }

  /**
   A name taken with AfterLast and put under a directory that is empty or
   ends in the separator is found again by AfterLast.
   */
  lemma SavedUnderOwnName(dir: string, path: string, sep: char)
    requires dir == [] || dir[|dir| - 1] == sep
    ensures AfterLast(dir + AfterLast(path, sep), sep) == AfterLast(path, sep)
  {
    var name := AfterLast(path, sep);
    if dir == [] {
      assert dir + name == name;
    } else {
      assert dir == dir[..|dir| - 1] + [sep];
      AfterLastOfJoin(dir[..|dir| - 1], name, sep);
    }
  }

  /** The path a rotate function returns and, if it persists, the path it writes to. */
  datatype Saved = Saved(path: string, writtenTo: Option<string>)

  /**
   The paths of `rotate_image(image_path, des_dir, angle)`: it returns
   `des_dir + image_name` and writes the rotated image there only when
   `des_dir` is not empty.
   */
  function RotateImage(imagePath: string, desDir: string): (r: Saved)
    ensures r.writtenTo.Some? <==> desDir != ""
    ensures r.writtenTo.Some? ==> r.writtenTo.value == r.path
    ensures |desDir| <= |r.path| && r.path[..|desDir|] == desDir
    ensures r.path[|desDir|..] == ImageName(imagePath)
  {
    var path := desDir + ImageName(imagePath);
    assert path[|desDir|..] == ImageName(imagePath);
    Saved(path, if desDir != "" then Some(path) else None)
  }

  /**
   The paths of `rotate_right_image(image_path, des_dir, angle)`: the same
   `des_dir + image_name`, always written.
   */
  function RotateRightImage(imagePath: string, desDir: string): (r: Saved)
    ensures r.writtenTo == Some(r.path)
    ensures r.path == RotateImage(imagePath, desDir).path
  {
    var path := desDir + ImageName(imagePath);
    Saved(path, Some(path))
  }

  /**
   When the destination directory is empty or ends in `\`, the path the
   rotate functions return (and write to, when they write) carries the
   source image's own name.
   */
  lemma RotatedFileKeepsName(imagePath: string, desDir: string)
    requires desDir == "" || desDir[|desDir| - 1] == WindowsSeparator
    ensures ImageName(RotateImage(imagePath, desDir).path) == ImageName(imagePath)
    ensures ImageName(RotateRightImage(imagePath, desDir).path) == ImageName(imagePath)
  {
    SavedUnderOwnName(desDir, imagePath, WindowsSeparator);
  }

  /**
   How `download_img` ends: it returns the saved path, it returns None (a
   status other than 200, or an exception inside the `try`), or
   `os.makedirs(des_path)` raises before the `try` is entered.
   */
  datatype Download = Downloaded(path: string) | NotDownloaded | MakedirsRaised

  /**
   `download_img(des_path, url)`. `des_path` is checked with
   `os.path.exists` and created with `os.makedirs` outside the `try`:
   `dirReady` says whether it exists or is created. An empty `des_path` never
   exists and `os.makedirs('')` raises FileNotFoundError, so that case always
   raises. `response` is what `requests.get` gave (None when it raised, else
   the status code) and `writeOk` whether writing the file succeeded; both
   are inside the `try`, whose exceptions are caught.
   */
  function DownloadImg(desPath: string, url: string, dirReady: bool, response: Option<int>, writeOk: bool): (r: Download)
    ensures desPath == "" ==> r == MakedirsRaised
    ensures r == MakedirsRaised <==> desPath == "" || !dirReady
    ensures r.Downloaded? <==> desPath != "" && dirReady && response == Some(200) && writeOk
    ensures r.Downloaded? ==> |desPath| <= |r.path| && r.path[..|desPath|] == desPath
    ensures r.Downloaded? ==> r.path[|desPath|..] == UrlImageName(url)
  {
    if desPath == "" || !dirReady then MakedirsRaised
    else
      var imageName := UrlImageName(url);
      if response == Some(200) && writeOk then
        var path := desPath + imageName;
        assert path[|desPath|..] == imageName;
        Downloaded(path)
      else NotDownloaded
  }

  /**
   A completed download under a directory that ends in `/` is named by the
   URL's last segment; for a URL without `/` that is the whole URL.
   */
  lemma DownloadedFileNamedAfterUrl(desPath: string, url: string)
    requires desPath != "" && desPath[|desPath| - 1] == UrlSeparator
    ensures var r := DownloadImg(desPath, url, true, Some(200), true);
      r.Downloaded? && UrlImageName(r.path) == UrlImageName(url)
    ensures UrlSeparator !in url ==> DownloadImg(desPath, url, true, Some(200), true) == Downloaded(desPath + url)
  {
    SavedUnderOwnName(desPath, url, UrlSeparator);
  }
}
