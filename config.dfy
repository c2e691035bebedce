/**
 * The tuning constants of blindaid/core/config.py that the modelled logic
 * reads. Paths, model files and display settings are not part of this model.
 */
module Config {
  const ObjectDetectionConfidence: real := 0.6
  const SceneProcessEvery: int := 1

  const OcrConfidenceThreshold: real := 0.9
  const OcrCooldownSeconds: real := 5.0
  const OcrFrameSkip: int := 4

  const FaceThreshold: real := 0.5
  const FaceProcessEveryNFrames: int := 2
  const FaceDebounceSeconds: real := 15.0
  const FaceOverlayTimeout: real := 0.6

  const SceneObjectCooldownSeconds: real := 4.0

  const AudioEnabled: bool := true
}
