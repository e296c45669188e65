/**
 * Frame and component extraction (services/backend/app/helper/preprocessing.py): the crop
 * rectangle of a face component, the names and public paths of the extracted frames, and
 * the rewrite of a file path into the `static` file name.
 */
module Preprocessing {
  import opened Wrappers
  import opened Text
  import opened Constants
  import NaturalSort

  // ---------------------------------------------------------------------------
  // Paths

  /** `os.path.join(a, b)` on POSIX: an absolute `b` replaces `a`, otherwise one `/` is
      put between them unless `a` is empty or already ends with `/`. */
  function PathJoin(a: string, b: string): (r: string)
    ensures |r| >= |b|
    ensures |b| > 0 && b[0] == '/' ==> r == b
    ensures !(|b| > 0 && b[0] == '/') ==> r[|r| - |b|..] == b
  {
    if |b| > 0 && b[0] == '/' then b
    else if a == [] || a[|a| - 1] == '/' then a + b
    else a + "/" + b
  }

  /** `path.replace('\\', '/').replace('assets/', '', 1)`: the file name handed to
      `url_for('static', ...)`, relative to the `assets` folder served as static files. */
  function StaticFilename(path: string): (r: string)
    ensures '\\' !in r
  {
    var slashed := ReplaceChar(path, '\\', '/');
    assert '\\' !in slashed by {
      forall i | 0 <= i < |slashed| ensures slashed[i] != '\\' {
      }
    }
    ReplaceFirstKeepsOut(slashed, "assets/", "", '\\');
    ReplaceFirst(slashed, "assets/", "")
  }

  /** Where the app serves its static files. It is created with `static_folder='../assets'`
      and no `static_url_path`, so Flask serves them under `/` and the folder's base name. */
  const STATIC_URL_PATH := "/assets/"

  /** `url_for('static', filename=..., _external=True)` for a path rewritten as above, on a
      server whose external root is `urlRoot`. */
  function StaticUrl(urlRoot: string, path: string): (url: string)
    ensures |url| == |urlRoot| + 8 + |StaticFilename(path)|
    ensures url[..|urlRoot| + 8] == urlRoot + "/assets/"
    ensures url[|urlRoot| + 8..] == StaticFilename(path)
  {
    urlRoot + STATIC_URL_PATH + StaticFilename(path)
  }

  /** A path under `assets` loses exactly that first directory, whichever separator
      follows it, and every other backslash becomes `/`. */
  lemma {:induction false} StaticFilenameOfAssetsPath(sep: char, rest: string)
    requires sep == '/' || sep == '\\'
    ensures StaticFilename("assets" + [sep] + rest) == ReplaceChar(rest, '\\', '/')
  {
    var p := "assets" + [sep] + rest;
    var slashed := ReplaceChar(p, '\\', '/');
    AssetsPathSlashed(sep, rest);
    assert OccursAt(slashed, "assets/", 0) by { assert slashed[0..7] == "assets/"; }
    ReplaceFirstAt(slashed, "assets/", "", 0);
    assert slashed[7..] == ReplaceChar(rest, '\\', '/');
  }

  /** A file saved under `assets` is served at its own path below the root: the `assets/`
      that the rewrite strips is the static URL path the app serves the folder under. */
  lemma {:induction false} StaticUrlOfAssetsPath(urlRoot: string, sep: char, rest: string)
    requires sep == '/' || sep == '\\'
    ensures StaticUrl(urlRoot, "assets" + [sep] + rest) == urlRoot + "/assets/" + ReplaceChar(rest, '\\', '/')
  {
    var path := "assets" + [sep] + rest;
    var name := StaticFilename(path);
    assert name == ReplaceChar(rest, '\\', '/') by { StaticFilenameOfAssetsPath(sep, rest); }
    assert StaticUrl(urlRoot, path) == urlRoot + STATIC_URL_PATH + name;
  }

  /** Slashing a path under `assets` gives `assets/` and the slashed rest. */
  lemma {:induction false} AssetsPathSlashed(sep: char, rest: string)
    requires sep == '/' || sep == '\\'
    ensures ReplaceChar("assets" + [sep] + rest, '\\', '/') == "assets/" + ReplaceChar(rest, '\\', '/')
  {
    ReplaceCharConcat("assets" + [sep], rest, '\\', '/');
    assert ReplaceChar("assets" + [sep], '\\', '/') == "assets/";
  }

  /** Only the first `assets/` is removed; a second one stays. */
  lemma {:induction false} StaticFilenameRemovesOnlyFirst(rest: string)
    requires '\\' !in rest
    ensures StaticFilename("assets/assets/" + rest) == "assets/" + rest
  {
    assert "assets/assets/" + rest == "assets" + ['/'] + ("assets/" + rest);
    StaticFilenameOfAssetsPath('/', "assets/" + rest);
    ReplaceCharConcat("assets/", rest, '\\', '/');
    assert ReplaceChar("assets/", '\\', '/') == "assets/";
    ReplaceCharAbsent(rest, '\\', '/');
  }

  /** A path that does not contain `assets/` keeps its text, up to the separators. */
  lemma {:induction false} StaticFilenameOutsideAssets(path: string)
    requires forall i :: 0 <= i <= |path| ==> !OccursAt(ReplaceChar(path, '\\', '/'), "assets/", i)
    ensures StaticFilename(path) == ReplaceChar(path, '\\', '/')
  {
    ReplaceFirstNone(ReplaceChar(path, '\\', '/'), "assets/", "");
  }

  // ---------------------------------------------------------------------------
  // extract_component_by_images: the crop rectangle

  /** The crop origin and size as the code computes them (lines 39-63), before slicing. */
  datatype CropRegion = CropRegion(x: int, y: int, width: int, height: int)

  function Max(a: int, b: int): int { if a >= b then a else b }
  function Min(a: int, b: int): int { if a <= b then a else b }

  /** The crop of one component, from the landmark coordinates `xRight`, `xLeft`,
      `yHighest`, `yLowest` of its rectangle and the image size. The landmark width and
      height (lines 51-52) are computed and then overwritten, so they do not appear. */
  function ComponentCrop(xRight: int, xLeft: int, yHighest: int, yLowest: int,
                         shift: PixelShifting, dim: ObjectDimension,
                         imageWidth: nat, imageHeight: nat): (c: CropRegion)
    ensures c.x >= 0 && c.y >= 0
    ensures c.x == Max(0, xLeft - shift.pixelX) && c.y == Max(0, yHighest - shift.pixelY)
    ensures c.width <= dim.width && c.width <= imageWidth - c.x
    ensures c.height <= dim.height && c.height <= imageHeight - c.y
    ensures c.width == dim.width || c.width == imageWidth - c.x
    ensures c.height == dim.height || c.height == imageHeight - c.y
  {
    var x := Max(0, xLeft - shift.pixelX);
    var y := Max(0, yHighest - shift.pixelY);
    CropRegion(x, y, Min(dim.width, imageWidth - x), Min(dim.height, imageHeight - y))
  }

  /** The right and lowest landmarks have no effect on the crop. */
  lemma {:induction false} CropIgnoresRightAndLowest(xRight: int, xRight': int, xLeft: int, yHighest: int, yLowest: int, yLowest': int,
                                  shift: PixelShifting, dim: ObjectDimension, imageWidth: nat, imageHeight: nat)
    ensures ComponentCrop(xRight, xLeft, yHighest, yLowest, shift, dim, imageWidth, imageHeight)
         == ComponentCrop(xRight', xLeft, yHighest, yLowest', shift, dim, imageWidth, imageHeight)
  {
  }

  /** A half-open index range `[lo, hi)`. */
  datatype Span = Span(lo: nat, hi: nat)

  /** One bound of a Python slice: a negative bound counts from the end, and the result is
      clamped to `[0, len]`. */
  function SliceBound(i: int, len: nat): (r: nat)
    ensures r <= len
    ensures 0 <= i <= len ==> r == i
    ensures i > len ==> r == len
  {
    if i < 0 then (if i + len < 0 then 0 else i + len)
    else if i > len then len
    else i
  }

  /** The elements `a[start:stop]` selects in a sequence of length `len`. */
  function PySlice(len: nat, start: int, stop: int): (s: Span)
    ensures s.lo <= s.hi <= len
  {
    var lo := SliceBound(start, len);
    var hi := SliceBound(stop, len);
    Span(lo, if hi < lo then lo else hi)
  }

  /** `image[y : y + height + 1, x : x + width + 1]` (line 71): the rows and the columns kept. */
  function CropSpans(c: CropRegion, imageWidth: nat, imageHeight: nat): (spans: (Span, Span))
    ensures spans.0.hi <= imageHeight && spans.1.hi <= imageWidth
  {
    (PySlice(imageHeight, c.y, c.y + c.height + 1), PySlice(imageWidth, c.x, c.x + c.width + 1))
  }

  /** The crop stays inside the image and is at most one pixel larger than the component's
      dimension in each direction; away from the border it is exactly that large, and it is
      empty only when the shifted origin lies outside the image. */
  lemma {:induction false} CropWithinImage(xRight: int, xLeft: int, yHighest: int, yLowest: int,
                        shift: PixelShifting, dim: ObjectDimension, imageWidth: nat, imageHeight: nat)
    requires dim.width >= 0 && dim.height >= 0
    ensures var c := ComponentCrop(xRight, xLeft, yHighest, yLowest, shift, dim, imageWidth, imageHeight);
      var (rows, cols) := CropSpans(c, imageWidth, imageHeight);
      && rows.hi <= imageHeight && cols.hi <= imageWidth
      && rows.hi - rows.lo <= dim.height + 1 && cols.hi - cols.lo <= dim.width + 1
      && (c.x + dim.width + 1 <= imageWidth ==> cols == Span(c.x, c.x + dim.width + 1))
      && (c.y + dim.height + 1 <= imageHeight ==> rows == Span(c.y, c.y + dim.height + 1))
      && (cols.hi > cols.lo <==> c.x < imageWidth)
      && (rows.hi > rows.lo <==> c.y < imageHeight)
  {
  }

  /** The mouth of a 640x480 frame with its left landmark at x = 300 and its highest at
      y = 200: a 71x36 crop from (290, 190). */
  lemma {:induction false} MouthCropExample()
    ensures var info := COMPONENTS_SETUP[0].1;
      var c := ComponentCrop(330, 300, 200, 240, info.pixelShifting, info.objectDimension, 640, 480);
      c == CropRegion(290, 190, 70, 35) && CropSpans(c, 640, 480) == (Span(190, 226), Span(290, 361))
  {
  }

  // ---------------------------------------------------------------------------
  // extract_component_by_images: the saved component image

  /** `f"{name:02}"` for a string: padded on the right with `0` to two characters. */
  function Format02(name: string): (r: string)
    ensures |name| >= 2 ==> r == name
    ensures |r| >= 2 && r[..|name|] == name
  {
    if |name| >= 2 then name else name + seq(2 - |name|, _ => '0')
  }

  /** `os.path.join(directoryOutputImage, objectName, f"{frameName:02}.jpg")`. */
  function ComponentImagePath(directory: string, objectName: string, frameName: string): string
  {
    PathJoin(PathJoin(directory, objectName), Format02(frameName) + ".jpg")
  }

  /** `image_url`: set only when the preview is requested and the image was written. */
  function ComponentImageUrl(urlRoot: string, withPreview: bool, written: bool,
                             directory: string, objectName: string, frameName: string): (url: Option<string>)
    ensures url.Some? <==> withPreview && written
    ensures url.Some? ==> url.value == StaticUrl(urlRoot, ComponentImagePath(directory, objectName, frameName))
  {
    if withPreview && written then Some(StaticUrl(urlRoot, ComponentImagePath(directory, objectName, frameName))) else None
  }

  /** The URL `draw_quiver_and_save_plotlib_image` returns for the quiver plot of a
      component: `{frameName}-quiver.jpg` in the component's folder. */
  function QuiverImageUrl(urlRoot: string, directory: string, objectName: string, frameName: string): string
  {
    StaticUrl(urlRoot, PathJoin(PathJoin(directory, objectName), frameName + "-quiver.jpg"))
  }

  // ---------------------------------------------------------------------------
  // get_frames_by_input_video

  /** One entry of `images`: the frame's name and the public URL of its image. */
  datatype FrameImage = FrameImage(name: string, url: string)

  /** The result: the frames and an error message, or the exception that ended the loop. */
  datatype FramesOutcome = Frames(images: seq<FrameImage>, error: Option<string>) | Raised(exception: string)

  function FrameName(count: nat): string
  {
    "img" + NatToString(count)
  }

  function FrameUrl(urlRoot: string, pathOutputImage: string, count: nat): string
  {
    StaticUrl(urlRoot, PathJoin(pathOutputImage, FrameName(count) + ".jpg"))
  }

  /** The numbers of the frames whose image was written: frame `k` (counting from 1) when
      the `k`-th write succeeded. */
  function WrittenFrames(writes: seq<bool>): (ks: seq<nat>)
    ensures |ks| <= |writes|
  {
    if writes == [] then []
    else
      var front := WrittenFrames(writes[..|writes| - 1]);
      if writes[|writes| - 1] then front + [|writes|] else front
  }

  /** `ks` lists exactly the successful writes of `writes`, by number, in increasing order. */
  predicate ListsWrites(writes: seq<bool>, ks: seq<nat>)
  {
    && (forall j :: 0 <= j < |ks| ==> 1 <= ks[j] <= |writes| && writes[ks[j] - 1])
    && (forall k :: 1 <= k <= |writes| && writes[k - 1] ==> k in ks)
    && (forall i, j :: 0 <= i < j < |ks| ==> ks[i] < ks[j])
  }

  /** The written frames are exactly the successful writes, in increasing order. */
  lemma {:induction false} WrittenFramesSpec(writes: seq<bool>)
    ensures ListsWrites(writes, WrittenFrames(writes))
  {
    if writes != [] {
      var n := |writes|;
      var front := writes[..n - 1];
      WrittenFramesSpec(front);
      var fs := WrittenFrames(front);
      var ks := WrittenFrames(writes);
      assert ks == fs + (if writes[n - 1] then [n] else []);
      forall j | 0 <= j < |ks| ensures 1 <= ks[j] <= n && writes[ks[j] - 1] {
        if j < |fs| {
          assert ks[j] == fs[j];
          assert 1 <= fs[j] <= |front| && front[fs[j] - 1];
        }
      }
      forall k | 1 <= k <= n && writes[k - 1] ensures k in ks {
        if k < n {
          assert front[k - 1] == writes[k - 1];
          assert k in fs;
        }
      }
      forall i, j | 0 <= i < j < |ks| ensures ks[i] < ks[j] {
        if j < |fs| {
          assert ks[i] == fs[i] && ks[j] == fs[j];
        } else {
          assert ks[i] == fs[i] && fs[i] <= n - 1;
        }
      }
    }
  }

  /** The entry of the `k`-th read. */
  function FrameEntry(urlRoot: string, pathOutputImage: string, k: nat): FrameImage
  {
    FrameImage(FrameName(k), FrameUrl(urlRoot, pathOutputImage, k))
  }

  /** The frames `get_frames_by_input_video` lists for a capture whose successive reads
      were saved as `writes` says. */
  function FrameImages(urlRoot: string, pathOutputImage: string, writes: seq<bool>): (images: seq<FrameImage>)
    ensures |images| <= |writes|
  {
    if writes == [] then []
    else
      var n := |writes|;
      FrameImages(urlRoot, pathOutputImage, writes[..n - 1])
        + (if writes[n - 1] then [FrameEntry(urlRoot, pathOutputImage, n)] else [])
  }

  /** The `j`-th entry belongs to the `j`-th written frame. */
  lemma {:induction false} FrameImagesAt(urlRoot: string, pathOutputImage: string, writes: seq<bool>)
    ensures var images := FrameImages(urlRoot, pathOutputImage, writes);
      var ks := WrittenFrames(writes);
      |images| == |ks| && forall j :: 0 <= j < |ks| ==> images[j] == FrameEntry(urlRoot, pathOutputImage, ks[j])
  {
    if writes != [] {
      FrameImagesAt(urlRoot, pathOutputImage, writes[..|writes| - 1]);
    }
  }

  /** One more read adds one entry exactly when its image was written. */
  lemma {:induction false} FrameImagesSnoc(urlRoot: string, pathOutputImage: string, writes: seq<bool>, w: bool)
    ensures FrameImages(urlRoot, pathOutputImage, writes + [w])
         == FrameImages(urlRoot, pathOutputImage, writes)
            + (if w then [FrameEntry(urlRoot, pathOutputImage, |writes| + 1)] else [])
  {
    assert (writes + [w])[..|writes|] == writes;
  }

  /** Reading frame `count` extends the entries of the reads before it by its own entry
      when its write succeeded. */
  lemma {:induction false} FrameImagesPrefix(urlRoot: string, pathOutputImage: string, writes: seq<bool>, count: nat)
    requires 1 <= count <= |writes|
    ensures FrameImages(urlRoot, pathOutputImage, writes[..count])
         == FrameImages(urlRoot, pathOutputImage, writes[..count - 1])
            + (if writes[count - 1] then [FrameImage(FrameName(count), FrameUrl(urlRoot, pathOutputImage, count))] else [])
  {
    assert writes[..count] == writes[..count - 1] + [writes[count - 1]];
    FrameImagesSnoc(urlRoot, pathOutputImage, writes[..count - 1], writes[count - 1]);
  }

  /** `get_frames_by_input_video`. The file system and the capture are given as their
      observable results: whether the video path exists, whether the capture opened, the
      frame rate it reports, and for every frame read in turn whether writing it succeeded.
      The `framePerSecond` argument is overwritten by the capture's rate before any use. */
  method GetFramesByInputVideo(urlRoot: string, pathInputVideo: string, pathOutputImage: string, framePerSecond: real,
                               pathExists: bool, isOpened: bool, captureFps: real, writes: seq<bool>)
    returns (outcome: FramesOutcome)
    ensures !pathExists ==> outcome == Frames([], Some("Path to file " + pathInputVideo + " is not valid"))
    ensures pathExists && !isOpened ==> outcome == Frames([], Some("Failed to open video " + pathInputVideo))
    ensures pathExists && isOpened && captureFps == 0.0 && writes != [] ==> outcome == Raised("float division by zero")
    ensures pathExists && isOpened && (captureFps != 0.0 || writes == []) ==>
              outcome == Frames(FrameImages(urlRoot, pathOutputImage, writes), None)
  {
    var images: seq<FrameImage> := [];
    if !pathExists {
      return Frames(images, Some("Path to file " + pathInputVideo + " is not valid"));
    }
    if !isOpened {
      return Frames(images, Some("Failed to open video " + pathInputVideo));
    }
    var fps := captureFps;
    var count: nat := 1;
    while count <= |writes|
      invariant 1 <= count <= |writes| + 1
      invariant images == FrameImages(urlRoot, pathOutputImage, writes[..count - 1])
      invariant fps == captureFps && (fps == 0.0 ==> count == 1)
    {
      var filename := FrameName(count) + ".jpg";
      var filepath := PathJoin(pathOutputImage, filename);
      if writes[count - 1] {
        images := images + [FrameImage(FrameName(count), StaticUrl(urlRoot, filepath))];
      }
      FrameImagesPrefix(urlRoot, pathOutputImage, writes, count);
      count := count + 1;
      if fps == 0.0 {
        return Raised("float division by zero");
      }
    }
    assert writes[..count - 1] == writes;
    return Frames(images, None);
  }

  /** Read `k` has an entry named after it exactly when its image was written. */
  predicate NamesEveryWrite(writes: seq<bool>, images: seq<FrameImage>)
  {
    forall k: nat :: 1 <= k <= |writes| ==> (writes[k - 1] <==> FrameName(k) in ImageNames(images))
  }

  /** The `name` of every entry, in order. */
  function ImageNames(images: seq<FrameImage>): (names: seq<string>)
    ensures |names| == |images| && forall j :: 0 <= j < |images| ==> names[j] == images[j].name
  {
    seq(|images|, j requires 0 <= j < |images| => images[j].name)
  }

  /** Every successful write yields one entry, named after its read number: a failed write
      leaves a gap in the names, and the names are in natural-sort order. */
  lemma {:induction false} FrameImagesNamed(urlRoot: string, pathOutputImage: string, writes: seq<bool>)
    ensures NamesEveryWrite(writes, FrameImages(urlRoot, pathOutputImage, writes))
    ensures var images := FrameImages(urlRoot, pathOutputImage, writes);
      forall i, j :: 0 <= i < j < |images| ==>
        NaturalSort.KeyLess(NaturalSort.NaturalSortKey(images[i].name), NaturalSort.NaturalSortKey(images[j].name))
  {
    var images := FrameImages(urlRoot, pathOutputImage, writes);
    var ks := WrittenFrames(writes);
    WrittenFramesSpec(writes);
    FrameImagesNamesAt(urlRoot, pathOutputImage, writes);
    EveryWriteNamed(writes, ks, images);
    forall i, j | 0 <= i < j < |images|
      ensures NaturalSort.KeyLess(NaturalSort.NaturalSortKey(images[i].name), NaturalSort.NaturalSortKey(images[j].name))
    {
      assert NaturalSort.NoDigits("img");
      NaturalSort.NumberedNamesInNumericOrder("img", ks[i], ks[j]);
    }
  }

  /** The `j`-th entry is named after the `j`-th written frame. */
  lemma {:induction false} FrameImagesNamesAt(urlRoot: string, pathOutputImage: string, writes: seq<bool>)
    ensures var images := FrameImages(urlRoot, pathOutputImage, writes);
      && |images| == |WrittenFrames(writes)|
      && (forall j :: 0 <= j < |images| ==> images[j].name == FrameName(WrittenFrames(writes)[j]))
  {
    FrameImagesAt(urlRoot, pathOutputImage, writes);
  }

  lemma {:induction false} EveryWriteNamed(writes: seq<bool>, ks: seq<nat>, images: seq<FrameImage>)
    requires ListsWrites(writes, ks) && |images| == |ks|
    requires forall j :: 0 <= j < |images| ==> images[j].name == FrameName(ks[j])
    ensures NamesEveryWrite(writes, images)
  {
    var names := ImageNames(images);
    forall k: nat | 1 <= k <= |writes|
      ensures writes[k - 1] <==> FrameName(k) in names
    {
      if writes[k - 1] {
        assert k in ks;
        var j :| 0 <= j < |ks| && ks[j] == k;
        assert names[j] == FrameName(k);
      }
      if FrameName(k) in names {
        var j :| 0 <= j < |names| && names[j] == FrameName(k);
        FrameNameInjective(ks[j], k);
      }
    }
  }

  /** Different read numbers give different frame names. */
  lemma {:induction false} FrameNameInjective(m: nat, n: nat)
    requires FrameName(m) == FrameName(n)
    ensures m == n
  {
    assert NatToString(m) == FrameName(m)[3..] == FrameName(n)[3..] == NatToString(n);
    NatToStringValue(m);
    NatToStringValue(n);
  }
}
