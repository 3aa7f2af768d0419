/**
 * Liveness decisions of the liveness checker (liveness_checker.py): the
 * per-frame eye-closure decision, the blink counter, the head-movement test,
 * the passive texture gate and the fusion of these into one score.
 *
 * The foreign detectors enter as data: for each frame, the first face box
 * dlib's detector reports (if any) and the average eye aspect ratio the
 * landmark predictor yields for that face. Pixel statistics are reals.
 */
module Liveness {
  import opened Wrappers
  import Config
  import Utils
  import opened Numeric

  /** A frame counts as closed when its average EAR is strictly below this. */
  const EarThreshold: real := 0.25
  /** A closed run must last at least this many frames to be a blink. */
  const EarConsecFrames: nat := 3
  /** Fewer frames (or faces) than this never show head movement. */
  const MinMovementFrames: nat := 5
  /** A centre variance above this, on either axis, is head movement. */
  const MovementThreshold: real := 100.0

  /** A face box as dlib reports it. */
  datatype FaceRect = FaceRect(left: int, top: int, right: int, bottom: int)

  /**
   * What the foreign detectors observe in one frame: the first detected face,
   * if any, and the average of the two eyes' aspect ratios for that face.
   */
  datatype Frame = Frame(firstFace: Option<FaceRect>, avgEar: real)

  // ---------------------------------------------------------------- blinks

  /**
   * `detect_blink`: (is the eye closed?, average EAR). Without a landmark
   * predictor or without a face the frame reads as open with EAR 0.
   */
  function DetectBlink(predictorLoaded: bool, frame: Frame): (r: (bool, real))
    ensures r.0 <==> predictorLoaded && frame.firstFace.Some? && frame.avgEar < EarThreshold
    ensures !predictorLoaded || frame.firstFace.None? ==> r == (false, 0.0)
    ensures predictorLoaded && frame.firstFace.Some? ==> r.1 == frame.avgEar
  {
    if !predictorLoaded then (false, 0.0)
    else if frame.firstFace.None? then (false, 0.0)
    else (frame.avgEar < EarThreshold, frame.avgEar)
  }

  /** The per-frame closed flags the blink counter consumes. */
  function ClosedFlags(predictorLoaded: bool, frames: seq<Frame>): (closed: seq<bool>)
    ensures |closed| == |frames|
    ensures forall i :: 0 <= i < |frames| ==> closed[i] == DetectBlink(predictorLoaded, frames[i]).0
  {
    seq(|frames|, i requires 0 <= i < |frames| => DetectBlink(predictorLoaded, frames[i]).0)
  }

  /**
   * Frame `i` is the reopening edge of a blink: it is open and the three
   * frames before it are closed.
   */
  predicate ReopensAfterBlink(closed: seq<bool>, i: int) {
    EarConsecFrames <= i < |closed| && !closed[i] && closed[i - 1] && closed[i - 2] && closed[i - 3]
  }

  /** The number of blinks in a sequence of closed flags: its reopening edges. */
  function Blinks(closed: seq<bool>): nat
  {
    if closed == [] then 0
    else Blinks(closed[..|closed| - 1]) + (if ReopensAfterBlink(closed, |closed| - 1) then 1 else 0)
  }

  /** The length of the run of closed frames that ends just before frame `i`. */
  function RunBefore(closed: seq<bool>, i: nat): nat
    requires i <= |closed|
  {
    if i == 0 || !closed[i - 1] then 0 else 1 + RunBefore(closed, i - 1)
  }

  lemma RunBeforeLong(closed: seq<bool>, i: nat)
    requires i < |closed|
    ensures RunBefore(closed, i) >= EarConsecFrames
        <==> i >= 3 && closed[i - 1] && closed[i - 2] && closed[i - 3]
  {
    if i >= 1 && closed[i - 1] {
      assert RunBefore(closed, i) == 1 + RunBefore(closed, i - 1);
      if i >= 2 && closed[i - 2] {
        assert RunBefore(closed, i - 1) == 1 + RunBefore(closed, i - 2);
        if i >= 3 && closed[i - 3] {
          assert RunBefore(closed, i - 2) == 1 + RunBefore(closed, i - 3);
        }
      }
    }
  }

  /**
   * `count_blinks`: a closed run grows while frames are closed; an open frame
   * ends it, counting a blink when the run lasted at least three frames.
   */
  method CountBlinks(predictorLoaded: bool, frames: seq<Frame>) returns (blinkCount: nat)
    ensures blinkCount == Blinks(ClosedFlags(predictorLoaded, frames))
  {
    ghost var closed := ClosedFlags(predictorLoaded, frames);
    blinkCount := 0;
    var consecutiveClosed: nat := 0;
    for i := 0 to |frames|
      invariant blinkCount == Blinks(closed[..i])
      invariant consecutiveClosed == RunBefore(closed, i)
    {
      var (isBlink, _) := DetectBlink(predictorLoaded, frames[i]);
      assert closed[..i + 1][..i] == closed[..i];
      if isBlink {
        consecutiveClosed := consecutiveClosed + 1;
      } else {
        RunBeforeLong(closed, i);
        if consecutiveClosed >= EarConsecFrames {
          blinkCount := blinkCount + 1;
        }
        consecutiveClosed := 0;
      }
    }
    assert closed[..|frames|] == closed;
  }

  /** Each counted blink uses up at least four frames: three closed, one open. */
  lemma {:induction false} BlinksBound(closed: seq<bool>)
    ensures 4 * Blinks(closed) <= |closed|
  {
    if closed != [] {
      var n := |closed|;
      var prefix := closed[..n - 1];
      BlinksBound(prefix);
      if ReopensAfterBlink(closed, n - 1) {
        // the three closed frames before the edge are not edges themselves
        var p4 := closed[..n - 4];
        assert prefix[..n - 2] == closed[..n - 2];
        assert closed[..n - 2][..n - 3] == closed[..n - 3];
        assert closed[..n - 3][..n - 4] == p4;
        assert Blinks(closed[..n - 3]) == Blinks(p4);
        assert Blinks(closed[..n - 2]) == Blinks(closed[..n - 3]);
        assert Blinks(prefix) == Blinks(closed[..n - 2]);
        BlinksBound(p4);
      }
    }
  }

  /** A closed run still open when the frames run out is never counted. */
  lemma {:induction false} TrailingClosedRunNotCounted(closed: seq<bool>, k: nat)
    ensures Blinks(closed + seq(k, _ => true)) == Blinks(closed)
  {
    if k > 0 {
      var longer := closed + seq(k, _ => true);
      assert longer[..|longer| - 1] == closed + seq(k - 1, _ => true);
      TrailingClosedRunNotCounted(closed, k - 1);
    } else {
      assert closed + seq(k, _ => true) == closed;
    }
  }

  /** Without a closed frame there is no blink. */
  lemma {:induction false} NoClosedFrameNoBlink(closed: seq<bool>)
    requires forall i :: 0 <= i < |closed| ==> !closed[i]
    ensures Blinks(closed) == 0
  {
    if closed != [] {
      NoClosedFrameNoBlink(closed[..|closed| - 1]);
    }
  }

  /** Without a landmark predictor the counter never counts a blink. */
  lemma NoPredictorNoBlinks(frames: seq<Frame>)
    ensures Blinks(ClosedFlags(false, frames)) == 0
  {
    NoClosedFrameNoBlink(ClosedFlags(false, frames));
  }

  /** Appending an open frame adds a blink exactly when it ends a run of three or more. */
  lemma AppendOpen(closed: seq<bool>)
    ensures Blinks(closed + [false]) == Blinks(closed)
      + (if |closed| >= 3 && closed[|closed| - 1] && closed[|closed| - 2] && closed[|closed| - 3] then 1 else 0)
  {
    var c := closed + [false];
    var n := |closed|;
    assert c[..n] == closed;
    assert !c[n];
    if n >= 3 {
      assert c[n - 1] == closed[n - 1] && c[n - 2] == closed[n - 2] && c[n - 3] == closed[n - 3];
    }
    assert Blinks(c) == Blinks(closed) + (if ReopensAfterBlink(c, n) then 1 else 0);
  }

  /** Appending a closed frame never adds a blink. */
  lemma AppendClosed(closed: seq<bool>)
    ensures Blinks(closed + [true]) == Blinks(closed)
  {
    var c := closed + [true];
    assert c[..|closed|] == closed;
    assert !ReopensAfterBlink(c, |closed|);
  }

  /** EAR 0.3 five times, 0.1 four times, 0.3 five times: exactly one blink. */
  lemma OneBlinkExample()
    ensures Blinks(seq(5, _ => false) + seq(4, _ => true) + seq(5, _ => false)) == 1
  {
    var opens := seq(5, _ => false);
    NoClosedFrameNoBlink(opens);
    TrailingClosedRunNotCounted(opens, 4);
    var s := opens + seq(4, _ => true);
    AppendOpen(s);
    var s1 := s + [false];
    AppendOpen(s1);
    var s2 := s1 + [false];
    AppendOpen(s2);
    var s3 := s2 + [false];
    AppendOpen(s3);
    var s4 := s3 + [false];
    AppendOpen(s4);
    assert s4 + [false] == s + seq(5, _ => false);
  }

  /** EAR 0.3 five times, 0.1 twice, 0.3 five times: no blink, the run is too short. */
  lemma NoBlinkExample()
    ensures Blinks(seq(5, _ => false) + seq(2, _ => true) + seq(5, _ => false)) == 0
  {
    var opens := seq(5, _ => false);
    NoClosedFrameNoBlink(opens);
    TrailingClosedRunNotCounted(opens, 2);
    var s := opens + seq(2, _ => true);
    AppendOpen(s);
    var s1 := s + [false];
    AppendOpen(s1);
    var s2 := s1 + [false];
    AppendOpen(s2);
    var s3 := s2 + [false];
    AppendOpen(s3);
    var s4 := s3 + [false];
    AppendOpen(s4);
    assert s4 + [false] == s + seq(5, _ => false);
  }

  // --------------------------------------------------------- head movement

  /** The centre of a face box; the source divides by 2 in floating point. */
  function Center(r: FaceRect): (real, real) {
    ((r.left + r.right) as real / 2.0, (r.top + r.bottom) as real / 2.0)
  }

  /** The centres of the frames' first faces, in frame order, skipping faceless frames. */
  function FaceCenters(frames: seq<Frame>): (centers: seq<(real, real)>)
    ensures |centers| <= |frames|
  {
    if frames == [] then []
    else
      var last := frames[|frames| - 1];
      FaceCenters(frames[..|frames| - 1]) + (if last.firstFace.Some? then [Center(last.firstFace.value)] else [])
  }

  function Xs(points: seq<(real, real)>): (xs: seq<real>)
    ensures |xs| == |points| && forall i :: 0 <= i < |points| ==> xs[i] == points[i].0
  {
    seq(|points|, i requires 0 <= i < |points| => points[i].0)
  }

  function Ys(points: seq<(real, real)>): (ys: seq<real>)
    ensures |ys| == |points| && forall i :: 0 <= i < |points| ==> ys[i] == points[i].1
  {
    seq(|points|, i requires 0 <= i < |points| => points[i].1)
  }

  /** Population variance, as `np.var` computes it: the mean squared deviation. */
  function Variance(xs: seq<real>): real
    requires |xs| > 0
  {
    var m := Mean(xs);
    Mean(seq(|xs|, i requires 0 <= i < |xs| => (xs[i] - m) * (xs[i] - m)))
  }

  /**
   * The head moved: at least five frames, at least five of them with a face,
   * and the centres' variance on some axis above the movement threshold.
   */
  predicate HeadMoved(frames: seq<Frame>) {
    |frames| >= MinMovementFrames &&
    var centers := FaceCenters(frames);
    |centers| >= MinMovementFrames &&
    (Variance(Xs(centers)) > MovementThreshold || Variance(Ys(centers)) > MovementThreshold)
  }

  /** `check_head_movement`: collect the face centres, then compare their variances. */
  method CheckHeadMovement(frames: seq<Frame>) returns (moved: bool)
    ensures moved == HeadMoved(frames)
  {
    if |frames| < MinMovementFrames {
      return false;
    }
    var facePositions: seq<(real, real)> := [];
    for i := 0 to |frames|
      invariant facePositions == FaceCenters(frames[..i])
    {
      assert frames[..i + 1][..i] == frames[..i];
      if frames[i].firstFace.Some? {
        facePositions := facePositions + [Center(frames[i].firstFace.value)];
      }
    }
    assert frames[..|frames|] == frames;
    if |facePositions| < MinMovementFrames {
      return false;
    }
    moved := Variance(Xs(facePositions)) > MovementThreshold || Variance(Ys(facePositions)) > MovementThreshold;
  }

  /** A sequence of equal values has no variance. */
  lemma VarianceConstant(xs: seq<real>, c: real)
    requires |xs| > 0
    requires forall i :: 0 <= i < |xs| ==> xs[i] == c
    ensures Variance(xs) == 0.0
  {
    SumConstant(xs, c);
    var m := Mean(xs);
    assert m == c;
    var sq := seq(|xs|, i requires 0 <= i < |xs| => (xs[i] - m) * (xs[i] - m));
    SumConstant(sq, 0.0);
  }

  lemma {:induction false} FaceCentersOfStillHead(frames: seq<Frame>, r: FaceRect)
    requires forall i :: 0 <= i < |frames| && frames[i].firstFace.Some? ==> frames[i].firstFace.value == r
    ensures forall k :: 0 <= k < |FaceCenters(frames)| ==> FaceCenters(frames)[k] == Center(r)
  {
    if frames != [] {
      FaceCentersOfStillHead(frames[..|frames| - 1], r);
    }
  }

  /** A head whose face box never changes is never reported as moving. */
  lemma StillHeadDoesNotMove(frames: seq<Frame>, r: FaceRect)
    requires forall i :: 0 <= i < |frames| && frames[i].firstFace.Some? ==> frames[i].firstFace.value == r
    ensures !HeadMoved(frames)
  {
    var centers := FaceCenters(frames);
    FaceCentersOfStillHead(frames, r);
    if |centers| > 0 {
      VarianceConstant(Xs(centers), Center(r).0);
      VarianceConstant(Ys(centers), Center(r).1);
    }
  }

  // ------------------------------------------------------ passive liveness

  /** The three texture cues measured on the image (Laplacian, pixel variance, FFT). */
  datatype PassiveCues = PassiveCues(textureScore: real, colorVariance: real, highFreqScore: real)

  datatype PassiveResult = PassiveResult(
    isLive: bool, confidence: real,
    textureScore: real, colorVariance: real, highFreqScore: real)

  /**
   * `passive_liveness_check`: live only when all three cues pass; the
   * confidence is the scaled sum of the normalised cues, capped at 100.
   */
  function PassiveLivenessCheck(cues: PassiveCues): (r: PassiveResult)
    ensures r.isLive <==> cues.textureScore > 50.0 && cues.colorVariance > 100.0 && cues.highFreqScore > 10.0
    ensures r.confidence <= 100.0
    ensures cues.textureScore >= 0.0 && cues.colorVariance >= 0.0 && cues.highFreqScore >= 0.0 ==> r.confidence >= 0.0
    ensures r.isLive ==> r.confidence > 23.31
    ensures r.textureScore == cues.textureScore && r.colorVariance == cues.colorVariance
         && r.highFreqScore == cues.highFreqScore
  {
    var isLive := cues.textureScore > 50.0 && cues.colorVariance > 100.0 && cues.highFreqScore > 10.0;
    var raw := (cues.textureScore / 100.0 + cues.colorVariance / 1000.0 + cues.highFreqScore / 100.0) * 33.3;
    PassiveResult(isLive, if raw < 100.0 then raw else 100.0,
      cues.textureScore, cues.colorVariance, cues.highFreqScore)
  }

  // ---------------------------------------------------------------- fusion

  /**
   * Blink score: the expected number of blinks earns 50 points, twice that
   * number the cap of 100.
   */
  function BlinkScore(blinks: nat): (s: real)
    ensures 0.0 <= s <= 100.0
    ensures blinks == 0 <==> s == 0.0
    ensures blinks == Config.BlinkThreshold ==> s == 50.0
    ensures s == 100.0 <==> blinks >= 2 * Config.BlinkThreshold
  {
    var raw := blinks as real / Config.BlinkThreshold as real * 50.0;
    assert raw == blinks as real * 25.0;
    if raw < 100.0 then raw else 100.0
  }

  /** Multi-frame score: the unweighted mean of the blink, movement and passive scores. */
  function FusedScore(blinks: nat, headMovement: bool, passiveConfidence: real): real {
    (BlinkScore(blinks) + (if headMovement then 50.0 else 0.0) + passiveConfidence) / 3.0
  }

  /** Frames take the multi-frame path only when given and more than one. */
  predicate IsMultiFrame(frames: Option<seq<Frame>>) {
    frames.Some? && |frames.value| > 1
  }

  datatype LivenessResult = LivenessResult(
    qualityChecks: Utils.QualityChecks,
    passiveLiveness: PassiveResult,
    blinkCount: nat,
    headMovementDetected: bool,
    livenessScore: real,
    passed: bool)

  /**
   * `check_liveness`: quality and passive cues always; with two or more
   * frames, also blinks and head movement fused into one score that passes
   * above 50; otherwise the passive result decides alone.
   */
  method CheckLiveness(predictorLoaded: bool, stats: Utils.ImageStats, cues: PassiveCues,
                       frames: Option<seq<Frame>>) returns (r: LivenessResult)
    ensures r.qualityChecks == Utils.CheckImageQuality(stats)
    ensures r.passiveLiveness == PassiveLivenessCheck(cues)
    ensures IsMultiFrame(frames) ==>
      && r.blinkCount == Blinks(ClosedFlags(predictorLoaded, frames.value))
      && r.headMovementDetected == HeadMoved(frames.value)
      && r.livenessScore == FusedScore(r.blinkCount, r.headMovementDetected, r.passiveLiveness.confidence)
      && (r.passed <==> r.livenessScore > 50.0)
    ensures !IsMultiFrame(frames) ==>
      && r.blinkCount == 0 && !r.headMovementDetected
      && r.livenessScore == r.passiveLiveness.confidence
      && r.passed == r.passiveLiveness.isLive
  {
    var quality := Utils.CheckImageQuality(stats);
    var passive := PassiveLivenessCheck(cues);
    r := LivenessResult(quality, passive, 0, false, 0.0, false);
    if frames.Some? && |frames.value| > 1 {
      var blinkCount := CountBlinks(predictorLoaded, frames.value);
      var headMovement := CheckHeadMovement(frames.value);
      var score := FusedScore(blinkCount, headMovement, passive.confidence);
      r := r.(blinkCount := blinkCount, headMovementDetected := headMovement,
              livenessScore := score, passed := score > 50.0);
    } else {
      r := r.(livenessScore := passive.confidence, passed := passive.isLive);
    }
  }

  /** With no blink the fused score is at most (0 + 50 + 100) / 3 = 50, which never passes. */
  lemma ZeroBlinksNeverPass(headMovement: bool, cues: PassiveCues)
    ensures FusedScore(0, headMovement, PassiveLivenessCheck(cues).confidence) <= 50.0
  {
  }

  /** More blinks and detected movement never lower the fused score. */
  lemma FusedScoreMonotone(b1: nat, b2: nat, m1: bool, m2: bool, confidence: real)
    requires b1 <= b2 && (m1 ==> m2)
    ensures FusedScore(b1, m1, confidence) <= FusedScore(b2, m2, confidence)
  {
  }

  /** A flat, uniformly grey image has no texture and no colour variance: it never passes alone. */
  lemma UniformImageFailsSingleFrame(highFreqScore: real)
    ensures !PassiveLivenessCheck(PassiveCues(0.0, 0.0, highFreqScore)).isLive
  {
  }
}
