/**
 * Face-box geometry of the face detector (face_detector.py): the conversion
 * of Haar-cascade boxes to face locations, the detector dispatch, the choice
 * of the largest face and its crop, and the face quality record.
 *
 * The cascade and dlib detectors are foreign: their raw outputs are inputs.
 */
module FaceDetector {
  import opened Wrappers
  import Config
  import Utils

  /** A box as OpenCV's cascade reports it: corner (x, y), width w, height h. */
  datatype Rect = Rect(x: int, y: int, w: int, h: int)

  type Location = Utils.Location

  /** `(x, y, w, h)` as `(top, right, bottom, left)`. */
  function ToLocation(r: Rect): (loc: Location)
    ensures loc.top == r.y && loc.left == r.x
    ensures loc.right - loc.left == r.w && loc.bottom - loc.top == r.h
  {
    Utils.Location(r.y, r.x + r.w, r.y + r.h, r.x)
  }

  /** A location as a cascade box again. */
  function ToRect(loc: Location): Rect {
    Rect(loc.left, loc.top, loc.right - loc.left, loc.bottom - loc.top)
  }

  /** Converting a box to a location and back loses nothing, and vice versa. */
  lemma LocationRoundTrip(r: Rect, loc: Location)
    ensures ToRect(ToLocation(r)) == r
    ensures ToLocation(ToRect(loc)) == loc
  {
  }

  /** A box with positive sides becomes a location with right > left and bottom > top. */
  lemma ToLocationWellFormed(r: Rect)
    requires r.w > 0 && r.h > 0
    ensures ToLocation(r).right > ToLocation(r).left && ToLocation(r).bottom > ToLocation(r).top
  {
  }

  /** `detect_faces_opencv`: every cascade box converted, in order. */
  method DetectFacesOpenCV(faces: seq<Rect>) returns (faceLocations: seq<Location>)
    ensures |faceLocations| == |faces|
    ensures forall i :: 0 <= i < |faces| ==> faceLocations[i] == ToLocation(faces[i])
  {
    faceLocations := [];
    for i := 0 to |faces|
      invariant |faceLocations| == i
      invariant forall k :: 0 <= k < i ==> faceLocations[k] == ToLocation(faces[k])
    {
      faceLocations := faceLocations + [ToLocation(faces[i])];
    }
  }

  /** `detect_faces`: the cascade for "opencv", dlib's locations for any other name. */
  method DetectFaces(methodName: string, cascadeFaces: seq<Rect>, dlibLocations: seq<Location>)
    returns (faceLocations: seq<Location>)
    ensures methodName == "opencv" ==>
      |faceLocations| == |cascadeFaces| &&
      forall i :: 0 <= i < |cascadeFaces| ==> faceLocations[i] == ToLocation(cascadeFaces[i])
    ensures methodName != "opencv" ==> faceLocations == dlibLocations
  {
    if methodName == "opencv" {
      faceLocations := DetectFacesOpenCV(cascadeFaces);
    } else {
      faceLocations := dlibLocations;
    }
  }

  /** The key `extract_largest_face` maximises. */
  function Area(loc: Location): int {
    (loc.bottom - loc.top) * (loc.right - loc.left)
  }

  /**
   * The position `max` picks: a location of largest area, the first such one
   * (a later box replaces the current one only when strictly larger).
   */
  function LargestIndex(locs: seq<Location>): (k: nat)
    requires |locs| > 0
    ensures k < |locs|
    ensures forall j :: 0 <= j < |locs| ==> Area(locs[j]) <= Area(locs[k])
    ensures forall j :: 0 <= j < k ==> Area(locs[j]) < Area(locs[k])
  {
    if |locs| == 1 then 0
    else
      var k := LargestIndex(locs[..|locs| - 1]);
      if Area(locs[|locs| - 1]) > Area(locs[k]) then |locs| - 1 else k
  }

  /**
   * `extract_largest_face` on dlib's locations (its default detector): none
   * without a face; otherwise the crop of the largest face and that face.
   */
  function ExtractLargestFace<P>(image: seq<seq<P>>, locs: seq<Location>): (r: Option<(seq<seq<P>>, Location)>)
    ensures r.None? <==> locs == []
    ensures r.Some? ==>
      && r.value.1 in locs
      && (forall j :: 0 <= j < |locs| ==> Area(locs[j]) <= Area(r.value.1))
      // on a tie the first largest face wins, as `max` keeps the first
      && (exists k :: 0 <= k < |locs| && locs[k] == r.value.1 && forall j :: 0 <= j < k ==> Area(locs[j]) < Area(locs[k]))
      && r.value.0 == Utils.CropFaceRegion(image, r.value.1)
  {
    if locs == [] then None
    else
      var largest := locs[LargestIndex(locs)];
      Some((Utils.CropFaceRegion(image, largest), largest))
  }

  /** `extract_face_from_document`: the crop of the largest face, if there is a face. */
  function ExtractFaceFromDocument<P>(image: seq<seq<P>>, locs: seq<Location>): (r: Option<seq<seq<P>>>)
    ensures r.None? <==> ExtractLargestFace(image, locs).None?
    ensures r.Some? ==> r.value == ExtractLargestFace(image, locs).value.0
  {
    match ExtractLargestFace(image, locs)
    case Some((faceImage, _)) => Some(faceImage)
    case None => None
  }

  /** `detect_eyes`: the cascade's eye boxes, copied in order. */
  method DetectEyes(eyes: seq<Rect>) returns (eyeLocations: seq<Rect>)
    ensures eyeLocations == eyes
  {
    eyeLocations := [];
    for i := 0 to |eyes|
      invariant eyeLocations == eyes[..i]
    {
      eyeLocations := eyeLocations + [eyes[i]];
    }
  }

  /** The record `validate_face_quality` returns. */
  datatype FaceQuality = FaceQuality(
    imageQuality: Utils.QualityChecks,
    width: nat, height: nat,
    isLargeEnough: bool, aspectRatio: real, eyesDetected: bool)

  /**
   * `validate_face_quality`: the image quality flags, the face's size
   * against the minimum, its aspect ratio (0 for a zero height) and whether
   * at least two eyes were found.
   */
  method ValidateFaceQuality(stats: Utils.ImageStats, height: nat, width: nat, eyes: seq<Rect>)
    returns (q: FaceQuality)
    ensures q.imageQuality == Utils.CheckImageQuality(stats)
    ensures q.width == width && q.height == height
    ensures q.isLargeEnough <==> width >= Config.MinFaceSize && height >= Config.MinFaceSize
    ensures height > 0 ==> q.aspectRatio * height as real == width as real
    ensures height == 0 ==> q.aspectRatio == 0.0
    ensures q.eyesDetected <==> |eyes| >= 2
  {
    var qualityChecks := Utils.CheckImageQuality(stats);
    var aspectRatio := if height > 0 then width as real / height as real else 0.0;
    q := FaceQuality(qualityChecks, width, height,
      width >= Config.MinFaceSize && height >= Config.MinFaceSize, aspectRatio, false);
    var found := DetectEyes(eyes);
    q := q.(eyesDetected := |found| >= 2);
  }
}
