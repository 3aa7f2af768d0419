/**
 * The default policy constants of the configuration (config.py), as used when
 * no environment override is present.
 */
module Config {

  /** Structural match threshold: a combined score above it is a match. */
  const FaceMatchThreshold: real := 0.6
  /** Embedding distance tolerance: a distance at or below it is a match. */
  const FaceDistanceThreshold: real := 0.6
  /** Blinks that earn a blink score of 50; twice as many earn the full 100. */
  const BlinkThreshold: int := 2
  /** Smallest face side, in pixels, that counts as large enough. */
  const MinFaceSize: int := 100
  /** OCR word confidence threshold before the engine's cap of 30. */
  const OcrConfidenceThreshold: real := 60.0
  /** Largest accepted upload, in bytes (10 MB). */
  const MaxFileSize: int := 10485760
  /** Accepted file extensions, lower case and without the dot. */
  const SupportedFormats: seq<string> := ["pdf", "jpg", "jpeg", "png", "bmp", "tiff"]
}
