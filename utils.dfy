/**
 * The pure helpers of utils.py: file-name and size validation, the image
 * quality flags, file-name sanitising, face cropping and the resize bounds.
 * (`parse_date` is in the Dates module.)
 */
module Utils {
  import opened Wrappers
  import Text
  import opened Numeric

  // ------------------------------------------------------------ file names

  /** The position of the last `c` in `s`, if any. */
  function LastIndexOf(s: string, c: char): (r: Option<nat>)
    ensures r.Some? ==> r.value < |s| && s[r.value] == c && forall j :: r.value < j < |s| ==> s[j] != c
    ensures r.None? ==> forall j :: 0 <= j < |s| ==> s[j] != c
  {
    if s == [] then None
    else if s[|s| - 1] == c then Some(|s| - 1)
    else LastIndexOf(s[..|s| - 1], c)
  }

  /**
   * `Path(p).name` for a POSIX path: the last component, ignoring trailing
   * slashes and `.` components; empty when there is none.
   */
  function PathName(p: string): (name: string)
    ensures '/' !in name
    decreases |p|
  {
    if p == [] then ""
    else if p[|p| - 1] == '/' then PathName(p[..|p| - 1])
    else
      var start := match LastIndexOf(p, '/') case Some(i) => i + 1 case None => 0;
      var component := p[start..];
      if component == "." then PathName(p[..start]) else component
  }

  /**
   * `PurePath.suffix` of a name: from its last dot on, provided that dot is
   * neither the first nor the last character; otherwise empty.
   */
  function Suffix(name: string): (suffix: string)
    ensures suffix == [] || (suffix[0] == '.' && '.' !in suffix[1..] && |suffix| >= 2)
    ensures suffix != [] ==> |suffix| < |name| && suffix == name[|name| - |suffix|..]
  {
    match LastIndexOf(name, '.')
    case Some(i) => if 0 < i < |name| - 1 then name[i..] else ""
    case None => ""
  }

  /** `s.lstrip('.')` */
  function LStripDots(s: string): (r: string)
    ensures r == [] || r[0] != '.'
    ensures |r| <= |s| && r == s[|s| - |r|..]
  {
    if s != [] && s[0] == '.' then LStripDots(s[1..]) else s
  }

  /** The extension `validate_file_format` compares: lowered suffix without its dot. */
  function Extension(fileName: string): string {
    LStripDots(Text.Lower(Suffix(PathName(fileName))))
  }

  /**
   * `validate_file_format`: the file's extension is one of the allowed ones.
   * A name without a suffix has the extension "", and `lstrip` takes off
   * exactly the one dot a suffix starts with.
   */
  predicate ValidateFileFormat(fileName: string, allowedFormats: seq<string>): (ok: bool)
    ensures Suffix(PathName(fileName)) == [] ==> (ok <==> "" in allowedFormats)
    ensures Suffix(PathName(fileName)) != [] ==>
      (ok <==> Text.Lower(Suffix(PathName(fileName)))[1..] in allowedFormats)
  {
    ExtensionOfSuffix(Suffix(PathName(fileName)));
    Extension(fileName) in allowedFormats
  }

  /** `lstrip('.')` of a lowered suffix removes just its leading dot. */
  lemma ExtensionOfSuffix(suffix: string)
    requires suffix == [] || (suffix[0] == '.' && '.' !in suffix[1..] && |suffix| >= 2)
    ensures LStripDots(Text.Lower(suffix)) == if suffix == [] then [] else Text.Lower(suffix)[1..]
  {
    if suffix != [] {
      var lowered := Text.Lower(suffix);
      assert suffix[1] == suffix[1..][0];
      assert lowered[0] == '.' && lowered[1] != '.';
      assert lowered[1..][0] == lowered[1];
    }
  }

  // Lowering a string does not move its slashes and dots.

  lemma {:induction false} LastIndexOfLower(s: string, c: char)
    requires !Text.IsUpper(c) && !Text.IsLower(c)
    ensures LastIndexOf(Text.Lower(s), c) == LastIndexOf(s, c)
  {
    if s != [] {
      assert Text.Lower(s)[..|s| - 1] == Text.Lower(s[..|s| - 1]);
      LastIndexOfLower(s[..|s| - 1], c);
    }
  }

  lemma LowerSlice(s: string, i: nat, j: nat)
    requires i <= j <= |s|
    ensures Text.Lower(s)[i..j] == Text.Lower(s[i..j])
  {
  }

  lemma {:induction false} PathNameLower(p: string)
    ensures PathName(Text.Lower(p)) == Text.Lower(PathName(p))
    decreases |p|
  {
    var q := Text.Lower(p);
    if p != [] {
      LowerSlice(p, 0, |p| - 1);
      if p[|p| - 1] == '/' {
        PathNameLower(p[..|p| - 1]);
      } else {
        LastIndexOfLower(p, '/');
        var start := match LastIndexOf(p, '/') case Some(i) => i + 1 case None => 0;
        LowerSlice(p, start, |p|);
        LowerSlice(p, 0, start);
        assert q[start..] == "." <==> p[start..] == ".";
        if p[start..] == "." {
          PathNameLower(p[..start]);
        }
      }
    }
  }

  lemma SuffixLower(name: string)
    ensures Suffix(Text.Lower(name)) == Text.Lower(Suffix(name))
  {
    var q := Text.Lower(name);
    LastIndexOfLower(name, '.');
    assert |q| == |name|;
    match LastIndexOf(name, '.')
    case Some(i) =>
      if 0 < i < |name| - 1 {
        LowerSlice(name, i, |name|);
        assert Suffix(q) == q[i..];
        assert Suffix(name) == name[i..];
      } else {
        assert Suffix(q) == "" && Suffix(name) == "";
      }
    case None =>
      assert Suffix(q) == "" && Suffix(name) == "";
  }

  lemma LowerIdempotent(s: string)
    ensures Text.Lower(Text.Lower(s)) == Text.Lower(s)
  {
  }

  /** The format check ignores case: "X.PDF" passes exactly when "x.pdf" does. */
  lemma ValidateFileFormatIgnoresCase(fileName: string, allowedFormats: seq<string>)
    ensures ValidateFileFormat(Text.Lower(fileName), allowedFormats) == ValidateFileFormat(fileName, allowedFormats)
  {
    PathNameLower(fileName);
    SuffixLower(PathName(fileName));
    LowerIdempotent(Suffix(PathName(fileName)));
  }

  /** `validate_file_size`: the bound is inclusive. */
  predicate ValidateFileSize(fileSize: int, maxSize: int) {
    fileSize <= maxSize
  }

  /**
   * The accepted sizes are those up to and including the limit: a file of
   * exactly `maxSize` passes, one byte more fails, and a smaller file passes
   * whenever a larger one does.
   */
  lemma FileSizeLimitInclusive(smaller: int, larger: int, maxSize: int)
    requires smaller <= larger
    ensures ValidateFileSize(maxSize, maxSize) && !ValidateFileSize(maxSize + 1, maxSize)
    ensures ValidateFileSize(larger, maxSize) ==> ValidateFileSize(smaller, maxSize)
  {
  }

  // ------------------------------------------------------ quality flags

  /** Pixel statistics measured by OpenCV/numpy: grey mean, Laplacian variance, grey deviation. */
  datatype ImageStats = ImageStats(brightness: real, blurScore: real, contrast: real)

  /** The quality record `check_image_quality` returns. */
  datatype QualityChecks = QualityChecks(
    brightness: real, blurScore: real, contrast: real,
    isBrightEnough: bool, isSharpEnough: bool, hasGoodContrast: bool)

  /** `check_image_quality`: three independent strict thresholds on the measured statistics. */
  function CheckImageQuality(stats: ImageStats): (q: QualityChecks)
    ensures q.isBrightEnough <==> stats.brightness > 50.0
    ensures q.isSharpEnough <==> stats.blurScore > 100.0
    ensures q.hasGoodContrast <==> stats.contrast > 30.0
    ensures q.brightness == stats.brightness && q.blurScore == stats.blurScore && q.contrast == stats.contrast
  {
    QualityChecks(stats.brightness, stats.blurScore, stats.contrast,
      stats.brightness > 50.0, stats.blurScore > 100.0, stats.contrast > 30.0)
  }

  // ------------------------------------------------------------ sanitising

  /** The characters a sanitised file name may keep. */
  predicate IsSafe(c: char) {
    Text.IsAlnum(c) || c == '.' || c == '_' || c == '-'
  }

  function KeepSafe(s: string): (r: string)
    ensures |r| <= |s|
    ensures forall i :: 0 <= i < |r| ==> IsSafe(r[i])
  {
    if s == [] then [] else (if IsSafe(s[0]) then [s[0]] else []) + KeepSafe(s[1..])
  }

  /** `a` is `b` with some characters left out. */
  predicate IsSubsequence(a: string, b: string)
    decreases |b|
  {
    if b == [] then a == []
    else (a != [] && a[0] == b[0] && IsSubsequence(a[1..], b[1..])) || IsSubsequence(a, b[1..])
  }

  /** `sanitize_filename`: keep letters, digits, dots, underscores and dashes, then rstrip. */
  function SanitizeFilename(fileName: string): (r: string)
    ensures forall i :: 0 <= i < |r| ==> IsSafe(r[i])
  {
    Text.RStrip(KeepSafe(fileName))
  }

  lemma {:induction false} RStripOfSafe(s: string)
    requires forall i :: 0 <= i < |s| ==> IsSafe(s[i])
    ensures Text.RStrip(s) == s
  {
  }

  lemma {:induction false} KeepSafeSubsequence(s: string)
    ensures IsSubsequence(KeepSafe(s), s)
  {
    if s != [] {
      KeepSafeSubsequence(s[1..]);
      if IsSafe(s[0]) {
        assert ([s[0]] + KeepSafe(s[1..]))[1..] == KeepSafe(s[1..]);
      } else {
        assert KeepSafe(s) == KeepSafe(s[1..]);
      }
    }
  }

  lemma {:induction false} KeepSafeOfSafe(s: string)
    requires forall i :: 0 <= i < |s| ==> IsSafe(s[i])
    ensures KeepSafe(s) == s
  {
    if s != [] {
      KeepSafeOfSafe(s[1..]);
    }
  }

  /** Sanitising works character by character: the parts of a name are sanitised independently. */
  lemma {:induction false} KeepSafeAppend(a: string, b: string)
    ensures KeepSafe(a + b) == KeepSafe(a) + KeepSafe(b)
  {
    if a == [] {
      assert a + b == b;
    } else {
      assert (a + b)[0] == a[0] && (a + b)[1..] == a[1..] + b;
      KeepSafeAppend(a[1..], b);
    }
  }

  /** Every occurrence of a safe character survives, so only unsafe characters are dropped. */
  lemma {:induction false} KeepSafeKeepsSafeChars(s: string, c: char)
    requires IsSafe(c)
    ensures Text.Count(KeepSafe(s), c) == Text.Count(s, c)
  {
    if s != [] {
      KeepSafeKeepsSafeChars(s[1..], c);
      var head: string := if IsSafe(s[0]) then [s[0]] else [];
      assert KeepSafe(s) == head + KeepSafe(s[1..]);
      CountAppend(head, KeepSafe(s[1..]), c);
    }
  }

  lemma {:induction false} CountAppend(a: string, b: string, c: char)
    ensures Text.Count(a + b, c) == Text.Count(a, c) + Text.Count(b, c)
  {
    if a == [] {
      assert a + b == b;
    } else {
      assert (a + b)[0] == a[0] && (a + b)[1..] == a[1..] + b;
      CountAppend(a[1..], b, c);
    }
  }

  /**
   * `sanitize_filename` keeps every letter, digit, dot, underscore and dash
   * of the name, as often as it occurs, and nothing else: the trailing
   * `rstrip` never applies to what the filter kept.
   */
  lemma SanitizeKeepsEverySafeChar(fileName: string, c: char)
    ensures IsSafe(c) ==> Text.Count(SanitizeFilename(fileName), c) == Text.Count(fileName, c)
    ensures !IsSafe(c) ==> Text.Count(SanitizeFilename(fileName), c) == 0
  {
    RStripOfSafe(KeepSafe(fileName));
    if IsSafe(c) {
      KeepSafeKeepsSafeChars(fileName, c);
    }
  }

  /** The sanitised name is the input with characters removed, never added or reordered. */
  lemma SanitizeIsSubsequence(fileName: string)
    ensures IsSubsequence(SanitizeFilename(fileName), fileName)
  {
    RStripOfSafe(KeepSafe(fileName));
    KeepSafeSubsequence(fileName);
  }

  /** Sanitising a sanitised name changes nothing. */
  lemma SanitizeIdempotent(fileName: string)
    ensures SanitizeFilename(SanitizeFilename(fileName)) == SanitizeFilename(fileName)
  {
    var once := SanitizeFilename(fileName);
    KeepSafeOfSafe(once);
    RStripOfSafe(once);
  }

  /** A name made only of safe characters comes back unchanged. */
  lemma SanitizeKeepsSafeName(fileName: string)
    requires forall i :: 0 <= i < |fileName| ==> IsSafe(fileName[i])
    ensures SanitizeFilename(fileName) == fileName
  {
    KeepSafeOfSafe(fileName);
    RStripOfSafe(fileName);
  }

  // -------------------------------------------------------------- cropping

  /** A face location (top, right, bottom, left). */
  datatype Location = Location(top: int, right: int, bottom: int, left: int)

  /** Python's resolution of a slice bound against a length: negatives count from the end, then clamp. */
  function SliceBound(b: int, n: nat): (r: nat)
    ensures r <= n
    ensures 0 <= b <= n ==> r == b
  {
    var c := if b < 0 then b + n else b;
    if c < 0 then 0 else if c > n then n else c
  }

  /** `s[start:stop]` with Python's slice semantics. */
  function Slice<T>(s: seq<T>, start: int, stop: int): (r: seq<T>)
    ensures 0 <= start <= stop <= |s| ==> r == s[start..stop]
  {
    var a, b := SliceBound(start, |s|), SliceBound(stop, |s|);
    if a < b then s[a..b] else []
  }

  /** `crop_face_region`: `image[top:bottom, left:right]`. */
  function CropFaceRegion<P>(image: seq<seq<P>>, loc: Location): (crop: seq<seq<P>>)
    ensures 0 <= loc.top <= loc.bottom <= |image| ==> |crop| == loc.bottom - loc.top
    ensures 0 <= loc.top <= loc.bottom <= |image| ==>
      forall i :: 0 <= i < |crop| && 0 <= loc.left <= loc.right <= |image[loc.top + i]| ==>
        crop[i] == image[loc.top + i][loc.left..loc.right]
  {
    var rows := Slice(image, loc.top, loc.bottom);
    seq(|rows|, i requires 0 <= i < |rows| => Slice(rows[i], loc.left, loc.right))
  }

  /** An image whose rows all have `width` pixels. */
  predicate IsRectangular<P>(image: seq<seq<P>>, width: nat) {
    forall i :: 0 <= i < |image| ==> |image[i]| == width
  }

  /** A box inside the image crops to exactly the pixels it covers. */
  lemma CropInside<P>(image: seq<seq<P>>, width: nat, loc: Location)
    requires IsRectangular(image, width)
    requires 0 <= loc.top <= loc.bottom <= |image| && 0 <= loc.left <= loc.right <= width
    ensures |CropFaceRegion(image, loc)| == loc.bottom - loc.top
    ensures forall i :: 0 <= i < loc.bottom - loc.top ==>
      CropFaceRegion(image, loc)[i] == image[loc.top + i][loc.left..loc.right]
  {
  }

  // -------------------------------------------------------------- resizing

  datatype ResizeOutcome =
    | Unchanged
    | Resized(width: nat, height: nat)
    | ZeroDivision   // the ratio divides by a zero dimension
    | EmptyTarget    // a side truncates to 0, and `cv2.resize` rejects the empty size

  /**
   * `resize_image`: an image within the bounds is returned as is; otherwise
   * both sides are scaled by the smaller of the two bound ratios and
   * truncated, and a side that truncates to 0 makes `cv2.resize` raise.
   */
  function ResizeImage(width: nat, height: nat, maxWidth: nat, maxHeight: nat): (r: ResizeOutcome)
    ensures r.Unchanged? <==> width <= maxWidth && height <= maxHeight
    ensures r.ZeroDivision? <==> !r.Unchanged? && (width == 0 || height == 0)
    ensures r.EmptyTarget? ==> !r.Unchanged? && width > 0 && height > 0
    ensures r.Resized? ==>
      && 0 < r.width <= maxWidth && 0 < r.height <= maxHeight
      && r.width <= width && r.height <= height
      && (r.width == maxWidth || r.height == maxHeight)
    // an oversized image has both sides scaled by one ratio and truncated; it
    // is resized exactly when neither truncated side is 0
    ensures !r.Unchanged? && width > 0 && height > 0 ==>
      var ratio := ResizeRatio(width, height, maxWidth, maxHeight);
      && (r.Resized? || r.EmptyTarget?)
      && (r.Resized? <==> Scale(width, ratio) > 0 && Scale(height, ratio) > 0)
      && (r.Resized? ==> r.width == Scale(width, ratio) && r.height == Scale(height, ratio))
  {
    if width <= maxWidth && height <= maxHeight then Unchanged
    else if width == 0 || height == 0 then ZeroDivision
    else
      var ratio := ResizeRatio(width, height, maxWidth, maxHeight);
      ResizeBounds(width, height, maxWidth, maxHeight, ratio);
      var newWidth, newHeight := Scale(width, ratio), Scale(height, ratio);
      if newWidth == 0 || newHeight == 0 then EmptyTarget else Resized(newWidth, newHeight)
  }

  /** `int(side * ratio)`: a side scaled and truncated. */
  function Scale(side: nat, ratio: real): int {
    Trunc(side as real * ratio)
  }

  /** The scale factor of `resize_image`: the smaller of the two bound ratios. */
  function ResizeRatio(width: nat, height: nat, maxWidth: nat, maxHeight: nat): (ratio: real)
    requires width > 0 && height > 0
    ensures ratio >= 0.0
    ensures ratio <= maxWidth as real / width as real && ratio <= maxHeight as real / height as real
    ensures ratio == maxWidth as real / width as real || ratio == maxHeight as real / height as real
  {
    MinReal(maxWidth as real / width as real, maxHeight as real / height as real)
  }

  /**
   * The resize keeps the aspect ratio up to truncation: cross-multiplied,
   * the new sides differ from the old proportion by less than one old side.
   */
  lemma ResizeKeepsAspect(width: nat, height: nat, maxWidth: nat, maxHeight: nat)
    requires ResizeImage(width, height, maxWidth, maxHeight).Resized?
    ensures var r := ResizeImage(width, height, maxWidth, maxHeight);
      && r.width * height <= width * r.height + width
      && r.height * width <= height * r.width + height
  {
    var r := ResizeImage(width, height, maxWidth, maxHeight);
    assert !r.Unchanged? && width > 0 && height > 0;
    var ratio := ResizeRatio(width, height, maxWidth, maxHeight);
    assert r.width == Scale(width, ratio) && r.height == Scale(height, ratio);
    TruncatedProportion(width, height, ratio, r.width, r.height);
    TruncatedProportion(height, width, ratio, r.height, r.width);
  }

  /** Two sides truncated after scaling by one ratio: `a * h <= w * b + w`. */
  lemma TruncatedProportion(w: nat, h: nat, ratio: real, a: int, b: int)
    requires ratio >= 0.0
    requires a == Scale(w, ratio) && b == Scale(h, ratio)
    ensures a * h <= w * b + w
  {
    ScaleFloor(w, ratio);
    ScaleFloor(h, ratio);
    ProportionOfReals(w as real, h as real, ratio, a as real, (b + 1) as real);
    CastProduct(h, a);
    CastProduct(w, b + 1);
    assert h * a <= w * (b + 1);
  }

  /** A scaled side lies within one below the exact product. */
  lemma ScaleFloor(side: nat, ratio: real)
    requires ratio >= 0.0
    ensures Scale(side, ratio) as real <= side as real * ratio < Scale(side, ratio) as real + 1.0
  {
    ScaleMonotone(side as real, 0.0, ratio);
    assert Scale(side, ratio) == (side as real * ratio).Floor;
  }

  /** The real-number core of `TruncatedProportion`. */
  lemma ProportionOfReals(w: real, h: real, ratio: real, a: real, b: real)
    requires w >= 0.0 && h >= 0.0 && a <= w * ratio && h * ratio <= b
    ensures h * a <= w * b
  {
    ScaleMonotone(h, a, w * ratio);
    SwapFactors(w, h, ratio);
    ScaleMonotone(w, h * ratio, b);
  }

  /** Scaling two sides by one ratio, in either order. */
  lemma SwapFactors(w: real, h: real, ratio: real)
    ensures h * (w * ratio) == w * (h * ratio)
  {
  }

  /** Casting a product to a real multiplies the casts. */
  lemma CastProduct(p: int, q: int)
    ensures (p * q) as real == (p as real) * (q as real)
  {
  }

  /** A 1000 x 1 strip: the height scales to 0.8, truncates to 0, and the resize fails. */
  lemma ThinStripCannotBeResized()
    ensures ResizeImage(1000, 1, 800, 600) == EmptyTarget
  {
    var ratio := MinReal(800.0 / 1000.0, 600.0 / 1.0);
    assert ratio == 0.8;
    assert Trunc(1.0 * ratio) == 0;
  }

  /** A 1600 x 1200 page is halved to exactly the 800 x 600 bounds. */
  lemma LargePageIsHalved()
    ensures ResizeImage(1600, 1200, 800, 600) == Resized(800, 600)
  {
    var ratio := MinReal(800.0 / 1600.0, 600.0 / 1200.0);
    assert ratio == 0.5;
    assert Trunc(1600.0 * ratio) == 800 && Trunc(1200.0 * ratio) == 600;
  }

  lemma ResizeBounds(width: nat, height: nat, maxWidth: nat, maxHeight: nat, ratio: real)
    requires width > 0 && height > 0 && (width > maxWidth || height > maxHeight)
    requires ratio == ResizeRatio(width, height, maxWidth, maxHeight)
    ensures 0 <= Scale(width, ratio) <= maxWidth && Scale(width, ratio) <= width
    ensures 0 <= Scale(height, ratio) <= maxHeight && Scale(height, ratio) <= height
    ensures Scale(width, ratio) == maxWidth || Scale(height, ratio) == maxHeight
  {
    var rw := maxWidth as real / width as real;
    var rh := maxHeight as real / height as real;
    assert ratio == MinReal(rw, rh);
    if width > maxWidth { RatioBelowOne(maxWidth as real, width as real); }
    if height > maxHeight { RatioBelowOne(maxHeight as real, height as real); }
    assert 0.0 <= ratio < 1.0 && ratio <= rw && ratio <= rh;
    ScaledSide(width, maxWidth, ratio);
    ScaledSide(height, maxHeight, ratio);
  }

  /** One side scaled by a ratio at most `bound / side` and below one. */
  lemma ScaledSide(side: nat, bound: nat, ratio: real)
    requires side > 0 && 0.0 <= ratio < 1.0 && ratio <= bound as real / side as real
    ensures 0 <= Scale(side, ratio) <= bound && Scale(side, ratio) <= side
    ensures ratio == bound as real / side as real ==> Scale(side, ratio) == bound
  {
    var p := side as real * ratio;
    assert Scale(side, ratio) == Trunc(p);
    ScaledProduct(side as real, bound as real, ratio, p);
    TruncBetween(p, bound);
    TruncBetween(p, side);
  }

  /** The real-number core of `ScaledSide`, about the product `p`. */
  lemma ScaledProduct(s: real, b: real, ratio: real, p: real)
    requires s > 0.0 && 0.0 <= ratio < 1.0 && ratio <= b / s
    requires p == s * ratio
    ensures 0.0 <= p <= b && p <= s
    ensures ratio == b / s ==> p == b
  {
    ScaleBack(b, s);
    ScaleMonotone(s, ratio, b / s);
    ScaleMonotone(s, ratio, 1.0);
    ScaleMonotone(s, 0.0, ratio);
  }

  lemma TruncBetween(x: real, n: nat)
    requires 0.0 <= x
    ensures 0 <= Trunc(x)
    ensures x <= n as real ==> Trunc(x) <= n
    ensures x == n as real ==> Trunc(x) == n
  {
  }

  lemma ScaleBack(m: real, w: real)
    requires w > 0.0
    ensures w * (m / w) == m
  {
  }

  lemma RatioBelowOne(m: real, w: real)
    requires 0.0 <= m < w
    ensures 0.0 <= m / w < 1.0
  {
  }

  lemma ScaleMonotone(a: real, x: real, y: real)
    requires a >= 0.0 && x <= y
    ensures a * x <= a * y
  {
  }
}
