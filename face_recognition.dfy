/**
 * `FaceRecognitionService`: best-match selection with the face threshold.
 * Embedding extraction (DeepFace) is outside the model; comparison and the
 * base64 handling are the shared ones of module `Embeddings`.
 */
module FaceRecognition {
  import opened Wrappers
  import opened Embeddings
  import opened Matching
  import Config

  const THRESHOLD: real := Config.FACE_RECOGNITION_THRESHOLD

  /**
   * `find_match` with the face threshold. A face is matched exactly when some
   * stored record scores at least the threshold (a similarity equal to the
   * threshold is accepted), and the confidence is then at least the threshold.
   */
  method FindMatch(query: Embedding, stored: seq<EmbeddingRecord>, dist: Distance)
    returns (matchId: Option<string>, confidence: real)
    ensures MatchOutcome(matchId, confidence) == Decide(query, stored, dist, THRESHOLD)
    ensures matchId.Some? <==>
      exists j | 0 <= j < |stored| :: CompareEmbeddings(query, stored[j].embedding, dist) >= THRESHOLD
    ensures matchId.Some? ==> confidence >= THRESHOLD
    ensures matchId.None? ==> confidence == 0.0
  {
    matchId, confidence := Matching.FindMatch(query, stored, dist, THRESHOLD);
  }
}
