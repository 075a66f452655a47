/**
 * `VoiceRecognitionService`: best-match selection with the voice threshold,
 * and the layout of the voice embedding built from MFCC statistics.
 *
 * Loading the audio and computing the MFCC rows, their deltas and the
 * per-row statistics are library calls (librosa, numpy) outside the model:
 * their results are the input `AudioAnalysis`.
 */
module VoiceRecognition {
  import opened Wrappers
  import opened Embeddings
  import opened Matching
  import Config

  const THRESHOLD: real := Config.VOICE_RECOGNITION_THRESHOLD

  /** Audio shorter than this many samples (0.1 s at 16 kHz) gives no embedding. */
  const MIN_SAMPLES: nat := 1600

  /** The number of MFCC rows requested from librosa; the delta rows are as many. */
  const N_MFCC: nat := 40

  /** Statistics of one MFCC row, in the order they enter the embedding. */
  datatype MfccRowStats = MfccRowStats(mean: real, std: real, min: real, max: real)

  /** Statistics of one delta-MFCC row, in the order they enter the embedding. */
  datatype DeltaRowStats = DeltaRowStats(mean: real, std: real)

  /**
   * What loading and analysing the recorded audio produced; `AnalysisFailed`
   * when any step of it raised (loading, the MFCCs, or the delta features).
   */
  datatype AudioAnalysis =
    | AnalysisFailed
    | Loaded(sampleCount: nat, mfcc: seq<MfccRowStats>, delta: seq<DeltaRowStats>)

  /** The four values of each MFCC row, row after row. */
  function MfccValues(rows: seq<MfccRowStats>): (v: seq<real>)
    ensures |v| == 4 * |rows|
  {
    if rows == [] then []
    else
      var last := rows[|rows| - 1];
      MfccValues(rows[..|rows| - 1]) + [last.mean, last.std, last.min, last.max]
  }

  /** The two values of each delta row, row after row. */
  function DeltaValues(rows: seq<DeltaRowStats>): (v: seq<real>)
    ensures |v| == 2 * |rows|
  {
    if rows == [] then []
    else
      var last := rows[|rows| - 1];
      DeltaValues(rows[..|rows| - 1]) + [last.mean, last.std]
  }

  /** The voice embedding: all MFCC statistics, then all delta statistics. */
  function EmbeddingLayout(mfcc: seq<MfccRowStats>, delta: seq<DeltaRowStats>): (v: Embedding)
    ensures |v| == 4 * |mfcc| + 2 * |delta|
  {
    MfccValues(mfcc) + DeltaValues(delta)
  }

  /** Reads MFCC row statistics back from groups of four values. */
  function UnpackMfcc(v: seq<real>): seq<MfccRowStats>
    requires |v| % 4 == 0
    decreases |v|
  {
    if v == [] then []
    else
      var n := |v|;
      UnpackMfcc(v[..n - 4]) + [MfccRowStats(v[n - 4], v[n - 3], v[n - 2], v[n - 1])]
  }

  /** Reads delta row statistics back from pairs of values. */
  function UnpackDelta(v: seq<real>): seq<DeltaRowStats>
    requires |v| % 2 == 0
    decreases |v|
  {
    if v == [] then []
    else
      var n := |v|;
      UnpackDelta(v[..n - 2]) + [DeltaRowStats(v[n - 2], v[n - 1])]
  }

  lemma {:induction false} UnpackMfccValues(rows: seq<MfccRowStats>)
    ensures UnpackMfcc(MfccValues(rows)) == rows
  {
    if rows != [] {
      var init := rows[..|rows| - 1];
      var v := MfccValues(rows);
      assert v[..|v| - 4] == MfccValues(init);
      UnpackMfccValues(init);
      assert rows == init + [rows[|rows| - 1]];
    }
  }

  lemma {:induction false} UnpackDeltaValues(rows: seq<DeltaRowStats>)
    ensures UnpackDelta(DeltaValues(rows)) == rows
  {
    if rows != [] {
      var init := rows[..|rows| - 1];
      var v := DeltaValues(rows);
      assert v[..|v| - 2] == DeltaValues(init);
      UnpackDeltaValues(init);
      assert rows == init + [rows[|rows| - 1]];
    }
  }

  /**
   * The layout loses nothing: knowing the number of MFCC rows, every row's
   * statistics can be read back from the embedding.
   */
  lemma LayoutRoundTrip(mfcc: seq<MfccRowStats>, delta: seq<DeltaRowStats>)
    ensures var v := EmbeddingLayout(mfcc, delta);
      && UnpackMfcc(v[..4 * |mfcc|]) == mfcc
      && UnpackDelta(v[4 * |mfcc|..]) == delta
  {
    var v := EmbeddingLayout(mfcc, delta);
    assert v[..4 * |mfcc|] == MfccValues(mfcc);
    assert v[4 * |mfcc|..] == DeltaValues(delta);
    UnpackMfccValues(mfcc);
    UnpackDeltaValues(delta);
  }

  /**
   * `extract_embedding` after the audio is analysed: too-short audio gives
   * `None`; otherwise four statistics per MFCC row (mean, std, min, max) are
   * appended, then two per delta row (mean, std): 240 values for 40 rows.
   */
  method ExtractEmbedding(audio: AudioAnalysis) returns (embedding: Option<Embedding>)
    ensures audio.AnalysisFailed? ==> embedding.None?
    ensures audio.Loaded? ==> (embedding.None? <==> audio.sampleCount < MIN_SAMPLES)
    ensures embedding.Some? ==> embedding.value == EmbeddingLayout(audio.mfcc, audio.delta)
    ensures embedding.Some? && |audio.mfcc| == N_MFCC && |audio.delta| == N_MFCC ==>
      |embedding.value| == 240
  {
    if audio.AnalysisFailed? {
      return None;
    }
    if audio.sampleCount < MIN_SAMPLES {
      return None;
    }
    var mfcc, delta := audio.mfcc, audio.delta;
    var values: seq<real> := [];
    for i := 0 to |mfcc|
      invariant values == MfccValues(mfcc[..i])
    {
      assert mfcc[..i + 1][..i] == mfcc[..i];
      values := values + [mfcc[i].mean, mfcc[i].std, mfcc[i].min, mfcc[i].max];
    }
    assert mfcc[..|mfcc|] == mfcc;
    for i := 0 to |delta|
      invariant values == MfccValues(mfcc) + DeltaValues(delta[..i])
    {
      assert delta[..i + 1][..i] == delta[..i];
      values := values + [delta[i].mean, delta[i].std];
    }
    assert delta[..|delta|] == delta;
    return Some(values);
  }

  /**
   * `find_match` with the voice threshold: `(None, 0.0)` when no stored voice
   * scores at least the threshold, otherwise a member whose record scores
   * highest, with that score.
   */
  method FindMatch(query: Embedding, stored: seq<EmbeddingRecord>, dist: Distance)
    returns (matchId: Option<string>, confidence: real)
    ensures MatchOutcome(matchId, confidence) == Decide(query, stored, dist, THRESHOLD)
    ensures matchId.Some? <==>
      exists j | 0 <= j < |stored| :: CompareEmbeddings(query, stored[j].embedding, dist) >= THRESHOLD
    ensures matchId.Some? ==> confidence >= THRESHOLD
    ensures matchId.None? ==> confidence == 0.0
  {
    matchId, confidence := Matching.FindMatch(query, stored, dist, THRESHOLD);
  }
}
