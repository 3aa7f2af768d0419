/**
 * Face-match decisions of the face matcher (face_matcher.py): the threshold
 * fallback, the method dispatch, the embedding and structural comparisons,
 * the SSIM formula and the layout of the side-by-side comparison image.
 *
 * Grey images are flattened pixel sequences; the Gaussian blur, the histogram
 * correlation, the face encoder and the encoding distance are foreign
 * functions and enter as parameters.
 */
module FaceMatcher {
  import opened Wrappers
  import Config
  import Numeric

  type Image = seq<real>
  type Encoding = seq<real>

  /** The matcher's configuration, fixed by its constructor. */
  datatype Matcher = Matcher(threshold: real, distanceThreshold: real)

  /**
   * `FaceMatcher(threshold)`: `threshold or default`, so a missing threshold
   * and a threshold of 0.0 both fall back to the configured 0.6.
   */
  function NewMatcher(threshold: Option<real>): (m: Matcher)
    ensures threshold.Some? && threshold.value != 0.0 ==> m.threshold == threshold.value
    ensures threshold.None? || threshold.value == 0.0 ==> m.threshold == Config.FaceMatchThreshold
    ensures m.threshold != 0.0
    ensures m.distanceThreshold == Config.FaceDistanceThreshold
  {
    var t := if threshold.Some? && threshold.value != 0.0 then threshold.value else Config.FaceMatchThreshold;
    Matcher(t, Config.FaceDistanceThreshold)
  }

  /** Building a matcher from a built matcher's threshold keeps that threshold. */
  lemma NewMatcherStable(threshold: Option<real>)
    ensures NewMatcher(Some(NewMatcher(threshold).threshold)) == NewMatcher(threshold)
  {
  }

  /** The result dictionaries of the comparison methods. */
  datatype MatchResult =
    | Failed(error: string)
    | DlibResult(isMatch: bool, distance: real, similarityScore: real, confidence: real)
    | OpenCVResult(isMatch: bool, similarityScore: real, confidence: real, histSimilarity: real, ssimScore: real)
  {
    /** `result.get("match", False)` */
    function MatchOrFalse(): bool {
      match this
      case Failed(_) => false
      case DlibResult(m, _, _, _) => m
      case OpenCVResult(m, _, _, _, _) => m
    }

    /** `result.get("confidence", 0)` */
    function ConfidenceOrZero(): real {
      match this
      case Failed(_) => 0.0
      case DlibResult(_, _, _, c) => c
      case OpenCVResult(_, _, c, _, _) => c
    }
  }

  const NoFaceError: string := "Could not detect face in one or both images"

  /**
   * `compare_faces_dlib`: fails when either image yields no encoding;
   * otherwise compares the first encodings, matching at or below the distance
   * tolerance, with similarity 1 - distance.
   */
  function CompareFacesDlib(m: Matcher, encodings1: seq<Encoding>, encodings2: seq<Encoding>,
                            distance: (Encoding, Encoding) -> real): (r: MatchResult)
    ensures r.Failed? <==> encodings1 == [] || encodings2 == []
    ensures r.Failed? ==> r.error == NoFaceError
    ensures r.DlibResult? ==>
      && r.distance == distance(encodings1[0], encodings2[0])
      && (r.isMatch <==> r.distance <= m.distanceThreshold)
      && r.similarityScore + r.distance == 1.0
      && r.confidence == r.similarityScore * 100.0
    ensures !r.OpenCVResult?
  {
    if encodings1 == [] || encodings2 == [] then Failed(NoFaceError)
    else
      var d := distance(encodings1[0], encodings2[0]);
      var similarity := 1.0 - d;
      DlibResult(d <= m.distanceThreshold, d, similarity, similarity * 100.0)
  }

  // ------------------------------------------------------------------ SSIM

  const C1: real := 6.5025
  const C2: real := 58.5225

  /** Element-wise product of two images, over their common length. */
  function Mul(a: Image, b: Image): (p: Image)
    ensures |p| == if |a| <= |b| then |a| else |b|
    ensures forall i :: 0 <= i < |p| ==> p[i] == a[i] * b[i]
  {
    var n := if |a| <= |b| then |a| else |b|;
    seq(n, i requires 0 <= i < n => a[i] * b[i])
  }

  function Min(a: int, b: int): int { if a <= b then a else b }

  /**
   * One pixel of the SSIM map from the local means, variances and covariance.
   * A zero denominator gives 0 here, where numpy would give inf or nan; with a
   * Gaussian blur the variances are not negative, so the denominator is at
   * least C1 * C2 and never 0.
   */
  function SsimPixel(mu1: real, mu2: real, sigma1Sq: real, sigma2Sq: real, sigma12: real): real {
    var numerator := (2.0 * mu1 * mu2 + C1) * (2.0 * sigma12 + C2);
    var denominator := (mu1 * mu1 + mu2 * mu2 + C1) * (sigma1Sq + sigma2Sq + C2);
    if denominator == 0.0 then 0.0 else numerator / denominator
  }

  /**
   * The SSIM value at pixel `i` from the blurred images (`mu1`, `mu2`), the
   * blurred squares (`e11`, `e22`) and the blurred product (`e12`).
   */
  function SsimAt(mu1: Image, mu2: Image, e11: Image, e22: Image, e12: Image, i: nat): real
    requires i < |mu1| && i < |mu2| && i < |e11| && i < |e22| && i < |e12|
  {
    SsimPixel(mu1[i], mu2[i], e11[i] - mu1[i] * mu1[i], e22[i] - mu2[i] * mu2[i], e12[i] - mu1[i] * mu2[i])
  }

  lemma SsimAtSymmetric(mu1: Image, mu2: Image, e11: Image, e22: Image, e12: Image, i: nat)
    requires i < |mu1| && i < |mu2| && i < |e11| && i < |e22| && i < |e12|
    ensures SsimAt(mu1, mu2, e11, e22, e12, i) == SsimAt(mu2, mu1, e22, e11, e12, i)
  {
    var a, b := mu1[i], mu2[i];
    assert a * b == b * a;
    SsimPixelSymmetric(a, b, e11[i] - a * a, e22[i] - b * b, e12[i] - a * b);
  }

  /**
   * The SSIM map of `_calculate_ssim`: local statistics from the blurred
   * images, squares and product, combined pixel by pixel.
   */
  function SsimMap(img1: Image, img2: Image, blur: Image -> Image): seq<real>
  {
    var mu1, mu2 := blur(img1), blur(img2);
    var e11, e22, e12 := blur(Mul(img1, img1)), blur(Mul(img2, img2)), blur(Mul(img1, img2));
    var n := Min(Min(Min(|mu1|, |mu2|), Min(|e11|, |e22|)), |e12|);
    seq(n, i requires 0 <= i < n => SsimAt(mu1, mu2, e11, e22, e12, i))
  }

  /**
   * `_calculate_ssim`: the mean of the SSIM map, so it lies between the
   * smallest and the largest per-pixel value. An empty map gives 0 here,
   * where numpy's mean would be nan; the crops are 100x100, so the map is
   * never empty.
   */
  function CalculateSsim(img1: Image, img2: Image, blur: Image -> Image): (ssim: real)
    ensures SsimMap(img1, img2, blur) != [] ==>
      (exists i :: 0 <= i < |SsimMap(img1, img2, blur)| && SsimMap(img1, img2, blur)[i] <= ssim)
      && (exists j :: 0 <= j < |SsimMap(img1, img2, blur)| && ssim <= SsimMap(img1, img2, blur)[j])
  {
    var ssimMap := SsimMap(img1, img2, blur);
    if ssimMap == [] then 0.0
    else
      Numeric.MeanWithinRange(ssimMap);
      Numeric.Mean(ssimMap)
  }

  /** With a non-negative variance the SSIM quotient of a pixel with itself is 1. */
  lemma SsimPixelOfItself(mu: real, s: real)
    requires s >= 0.0
    ensures SsimPixel(mu, mu, s, s, s) == 1.0
  {
    var a, b := 2.0 * mu * mu + C1, 2.0 * s + C2;
    assert mu * mu + mu * mu + C1 == a && s + s + C2 == b;
    assert a > 0.0 && b > 0.0;
    PositiveProduct(a, b);
    assert (2.0 * mu * mu + C1) * (2.0 * s + C2) == a * b;
    assert (mu * mu + mu * mu + C1) * (s + s + C2) == a * b;
    var q := a * b;
    assert SsimPixel(mu, mu, s, s, s) == q / q;
    assert q / q == 1.0;
  }

  lemma PositiveProduct(a: real, b: real)
    requires a > 0.0 && b > 0.0
    ensures a * b > 0.0
  {
  }

  /**
   * An image compared with itself scores 1, provided every blurred square is
   * at least the square of the blurred value (a non-negative local variance,
   * as a Gaussian blur gives).
   */
  lemma SsimOfItself(img: Image, blur: Image -> Image)
    requires SsimMap(img, img, blur) != []
    requires forall i :: 0 <= i < |blur(img)| && i < |blur(Mul(img, img))| ==>
      blur(img)[i] * blur(img)[i] <= blur(Mul(img, img))[i]
    ensures CalculateSsim(img, img, blur) == 1.0
  {
    var m := SsimMap(img, img, blur);
    var mu, e := blur(img), blur(Mul(img, img));
    forall i | 0 <= i < |m| ensures m[i] == 1.0 {
      SsimPixelOfItself(mu[i], e[i] - mu[i] * mu[i]);
    }
    Numeric.SumConstant(m, 1.0);
  }

  lemma SsimPixelSymmetric(mu1: real, mu2: real, s1: real, s2: real, s12: real)
    ensures SsimPixel(mu1, mu2, s1, s2, s12) == SsimPixel(mu2, mu1, s2, s1, s12)
  {
    assert 2.0 * mu1 * mu2 == 2.0 * mu2 * mu1;
  }

  /** The SSIM map does not depend on the order of the two images. */
  lemma SsimMapSymmetric(img1: Image, img2: Image, blur: Image -> Image)
    ensures SsimMap(img1, img2, blur) == SsimMap(img2, img1, blur)
  {
    assert Mul(img1, img2) == Mul(img2, img1);
    var mu1, mu2 := blur(img1), blur(img2);
    var e11, e22, e12 := blur(Mul(img1, img1)), blur(Mul(img2, img2)), blur(Mul(img1, img2));
    var a := SsimMap(img1, img2, blur);
    var b := SsimMap(img2, img1, blur);
    assert |a| == |b|;
    forall i | 0 <= i < |a| ensures a[i] == b[i] {
      SsimAtSymmetric(mu1, mu2, e11, e22, e12, i);
    }
  }

  /** The structural similarity of two images is symmetric. */
  lemma SsimSymmetric(img1: Image, img2: Image, blur: Image -> Image)
    ensures CalculateSsim(img1, img2, blur) == CalculateSsim(img2, img1, blur)
  {
    SsimMapSymmetric(img1, img2, blur);
  }

  // ------------------------------------------------------------ structural

  /**
   * `compare_faces_opencv` on the two grey 100x100 crops: the mean of
   * histogram correlation and SSIM, a match strictly above the threshold.
   */
  function CompareFacesOpenCV(m: Matcher, gray1: Image, gray2: Image,
                              correl: (Image, Image) -> real, blur: Image -> Image): (r: MatchResult)
    ensures r.OpenCVResult?
    ensures r.histSimilarity == correl(gray1, gray2) && r.ssimScore == CalculateSsim(gray1, gray2, blur)
    ensures r.similarityScore == (r.histSimilarity + r.ssimScore) / 2.0
    ensures r.isMatch <==> r.similarityScore > m.threshold
    ensures r.confidence == r.similarityScore * 100.0
  {
    var similarity := correl(gray1, gray2);
    var ssim := CalculateSsim(gray1, gray2, blur);
    var combined := (similarity + ssim) / 2.0;
    OpenCVResult(combined > m.threshold, combined, combined * 100.0, similarity, ssim)
  }

  /** Raising the threshold can turn a structural match into a non-match, never the reverse. */
  lemma OpenCVMatchMonotone(t1: real, t2: real, gray1: Image, gray2: Image,
                            correl: (Image, Image) -> real, blur: Image -> Image)
    requires t1 <= t2
    ensures CompareFacesOpenCV(Matcher(t2, Config.FaceDistanceThreshold), gray1, gray2, correl, blur).isMatch
        ==> CompareFacesOpenCV(Matcher(t1, Config.FaceDistanceThreshold), gray1, gray2, correl, blur).isMatch
  {
  }

  /** With a symmetric histogram correlation the structural score is symmetric. */
  lemma OpenCVScoreSymmetric(m: Matcher, gray1: Image, gray2: Image,
                             correl: (Image, Image) -> real, blur: Image -> Image)
    requires correl(gray1, gray2) == correl(gray2, gray1)
    ensures CompareFacesOpenCV(m, gray1, gray2, correl, blur) == CompareFacesOpenCV(m, gray2, gray1, correl, blur)
  {
    SsimSymmetric(gray1, gray2, blur);
  }

  // -------------------------------------------------------------- dispatch

  /** What the foreign libraries make of the two face images. */
  datatype FacePair = FacePair(
    gray1: Image, gray2: Image,              // grey 100x100 crops
    encodings1: seq<Encoding>, encodings2: seq<Encoding>)

  /** `match_faces`: "opencv" selects the structural method; any other name selects dlib. */
  function MatchFaces(m: Matcher, faces: FacePair, methodName: string,
                      distance: (Encoding, Encoding) -> real,
                      correl: (Image, Image) -> real, blur: Image -> Image): (r: MatchResult)
    ensures methodName == "opencv" ==> r == CompareFacesOpenCV(m, faces.gray1, faces.gray2, correl, blur)
    ensures methodName != "opencv" ==> r == CompareFacesDlib(m, faces.encodings1, faces.encodings2, distance)
    ensures r.OpenCVResult? <==> methodName == "opencv"
  {
    if methodName == "dlib" then CompareFacesDlib(m, faces.encodings1, faces.encodings2, distance)
    else if methodName == "opencv" then CompareFacesOpenCV(m, faces.gray1, faces.gray2, correl, blur)
    else CompareFacesDlib(m, faces.encodings1, faces.encodings2, distance)
  }

  // ---------------------------------------------------- comparison picture

  const TargetHeight: int := 300

  /** Where `create_comparison_image` puts the pieces of its picture. */
  datatype Layout = Layout(
    height: int, width: int,
    newWidth1: int, newWidth2: int,
    headline: string, confidence: real,
    headlineAt: (int, int), documentLabelAt: (int, int), liveLabelAt: (int, int))

  /**
   * `int(w * (300 / h))` for a non-negative width: the floor of the exact
   * quotient. A zero height is Python's ZeroDivisionError.
   */
  function ScaledWidth(w: nat, h: nat): (r: Option<nat>)
    ensures r.None? <==> h == 0
    ensures r.Some? ==> r.value * h <= w * TargetHeight < (r.value + 1) * h
  {
    if h == 0 then None else Some((w * TargetHeight) / h)
  }

  /**
   * `create_comparison_image`: both faces scaled to height 300 and placed
   * side by side; the headline reads MATCH only for a result whose "match"
   * is present and true. There is no picture when a height is 0 (Python's
   * ZeroDivisionError) or when a scaled width truncates to 0, which
   * `cv2.resize` rejects as an empty size.
   */
  function ComparisonLayout(h1: nat, w1: nat, h2: nat, w2: nat, result: MatchResult): (r: Option<Layout>)
    ensures r.None? <==> h1 == 0 || h2 == 0 || w1 * TargetHeight < h1 || w2 * TargetHeight < h2
    ensures r.Some? ==>
      && r.value.height == TargetHeight
      && r.value.width == r.value.newWidth1 + r.value.newWidth2
      && 0 < r.value.newWidth1 && 0 < r.value.newWidth2
      && r.value.newWidth1 * h1 <= w1 * TargetHeight < (r.value.newWidth1 + 1) * h1
      && r.value.newWidth2 * h2 <= w2 * TargetHeight < (r.value.newWidth2 + 1) * h2
      && r.value.liveLabelAt == (r.value.newWidth1 + 10, TargetHeight - 10)
      && r.value.documentLabelAt == (10, TargetHeight - 10)
      && (r.value.headline == "MATCH" <==> result.MatchOrFalse())
      && (r.value.headline == "MATCH" || r.value.headline == "NO MATCH")
      && r.value.confidence == result.ConfidenceOrZero()
  {
    var s1 := ScaledWidth(w1, h1);
    var s2 := ScaledWidth(w2, h2);
    if s1.None? || s2.None? || s1.value == 0 || s2.value == 0 then None
    else
      var newW1, newW2 := s1.value, s2.value;
      var headline := if result.MatchOrFalse() then "MATCH" else "NO MATCH";
      Some(Layout(TargetHeight, newW1 + newW2, newW1, newW2, headline, result.ConfidenceOrZero(),
        (10, 30), (10, TargetHeight - 10), (newW1 + 10, TargetHeight - 10)))
  }

  /** A failed comparison is always drawn as NO MATCH with confidence 0. */
  lemma FailedResultDrawnAsNoMatch(h1: nat, w1: nat, h2: nat, w2: nat, error: string)
    requires h1 > 0 && h2 > 0 && w1 * TargetHeight >= h1 && w2 * TargetHeight >= h2
    ensures ComparisonLayout(h1, w1, h2, w2, Failed(error)).value.headline == "NO MATCH"
    ensures ComparisonLayout(h1, w1, h2, w2, Failed(error)).value.confidence == 0.0
  {
  }
}
