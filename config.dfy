/** Application settings that the matching core reads (defaults of the backend's `Settings`). */
module Config {

  /** Minimum similarity for a face to be accepted. */
  const FACE_RECOGNITION_THRESHOLD: real := 0.6

  /** Minimum similarity for a voice to be accepted. */
  const VOICE_RECOGNITION_THRESHOLD: real := 0.75
}
