/**
 * Best-match selection, the algorithm shared by `find_match` of the face and
 * voice services and by the patient face login.
 *
 * The source scans the candidates once, keeping a running best that starts
 * at similarity 0.0, and lets a candidate take over when its similarity is
 * strictly above the running best and clears the threshold. `Selection`
 * below says, without the loop, what that scan picks: the FIRST position of
 * the largest similarity, provided that similarity is positive and clears
 * the threshold; otherwise nothing.
 */
module Matching {
  import opened Wrappers
  import opened Embeddings

  /** How a similarity is compared with the threshold: `>=` in `find_match`, `>` in the face login. */
  datatype Gate = AtLeast | Above

  predicate Clears(gate: Gate, similarity: real, threshold: real) {
    match gate
    case AtLeast => similarity >= threshold
    case Above => similarity > threshold
  }

  /**
   * A similarity the scan can accept at all: it must clear the threshold and
   * beat the initial running best of 0.0.
   */
  predicate Accepted(gate: Gate, similarity: real, threshold: real) {
    similarity > 0.0 && Clears(gate, similarity, threshold)
  }

  /** `k` is the outcome of a best-match scan over `scores`, stated without the loop. */
  ghost predicate IsSelection(scores: seq<real>, threshold: real, gate: Gate, k: Option<nat>) {
    match k
    case None =>
      forall j | 0 <= j < |scores| :: !Accepted(gate, scores[j], threshold)
    case Some(i) =>
      && i < |scores|
      && Accepted(gate, scores[i], threshold)
      && (forall j | 0 <= j < |scores| :: scores[j] <= scores[i])
      && (forall j | 0 <= j < i :: scores[j] < scores[i])
  }

  /** The loop-free description admits one outcome only, so it determines the scan's result. */
  lemma SelectionUnique(scores: seq<real>, threshold: real, gate: Gate, k1: Option<nat>, k2: Option<nat>)
    requires IsSelection(scores, threshold, gate, k1) && IsSelection(scores, threshold, gate, k2)
    ensures k1 == k2
  {
    if k1.Some? && k2.Some? {
      var i1, i2 := k1.value, k2.value;
      assert scores[i1] <= scores[i2] && scores[i2] <= scores[i1];
    }
  }

  /** The first position holding the largest value. */
  function ArgMaxFirst(scores: seq<real>): (i: nat)
    requires scores != []
    ensures i < |scores|
    ensures forall j | 0 <= j < |scores| :: scores[j] <= scores[i]
    ensures forall j | 0 <= j < i :: scores[j] < scores[i]
  {
    if |scores| == 1 then 0
    else
      var k := ArgMaxFirst(scores[..|scores| - 1]);
      if scores[|scores| - 1] > scores[k] then |scores| - 1 else k
  }

  /** The position a best-match scan selects, if any. */
  function Selection(scores: seq<real>, threshold: real, gate: Gate): (k: Option<nat>)
    ensures IsSelection(scores, threshold, gate, k)
  {
    if scores == [] then None
    else
      var i := ArgMaxFirst(scores);
      if Accepted(gate, scores[i], threshold) then Some(i) else None
  }

  /**
   * The two gates differ exactly at the threshold: when the best similarity
   * equals a positive threshold, a `>=` scan selects it and a `>` scan
   * selects nothing.
   */
  lemma GatesDifferAtThreshold(scores: seq<real>, threshold: real, i: nat)
    requires threshold > 0.0
    requires i < |scores| && scores[i] == threshold
    requires forall j | 0 <= j < |scores| :: scores[j] <= threshold
    ensures Selection(scores, threshold, AtLeast).Some?
    ensures Selection(scores, threshold, Above).None?
  {
    assert Accepted(AtLeast, scores[i], threshold);
  }

  /** The similarity of the query to every stored record, in store order. */
  function Scores(query: Embedding, stored: seq<EmbeddingRecord>, dist: Distance): (scores: seq<real>)
    ensures |scores| == |stored|
    ensures forall i | 0 <= i < |stored| :: scores[i] == CompareEmbeddings(query, stored[i].embedding, dist)
  {
    seq(|stored|, i requires 0 <= i < |stored| => CompareEmbeddings(query, stored[i].embedding, dist))
  }

  /** `find_match`'s result: the matched family member's id (or `None`) and a confidence. */
  datatype MatchOutcome = MatchOutcome(memberId: Option<string>, confidence: real)

  /**
   * What `find_match` returns for a threshold: the member of the selected
   * record with its similarity, or `(None, 0.0)`. A near miss (a positive
   * similarity below the threshold) is not reported: the confidence is 0.0.
   */
  function Decide(query: Embedding, stored: seq<EmbeddingRecord>, dist: Distance, threshold: real): (m: MatchOutcome)
    ensures stored == [] ==> m == MatchOutcome(None, 0.0)
    ensures m.memberId.None? <==> m.confidence == 0.0
    ensures m.memberId.None? <==>
      forall j | 0 <= j < |stored| :: !Accepted(AtLeast, CompareEmbeddings(query, stored[j].embedding, dist), threshold)
    ensures m.memberId.Some? ==> m.confidence > 0.0 && m.confidence >= threshold
    ensures m.memberId.Some? ==>
      forall j | 0 <= j < |stored| :: CompareEmbeddings(query, stored[j].embedding, dist) <= m.confidence
    ensures m.memberId.Some? ==>
      exists i | 0 <= i < |stored| ::
        && stored[i].familyMemberId == m.memberId.value
        && CompareEmbeddings(query, stored[i].embedding, dist) == m.confidence
        && forall j | 0 <= j < i :: CompareEmbeddings(query, stored[j].embedding, dist) < m.confidence
  {
    var scores := Scores(query, stored, dist);
    match Selection(scores, threshold, AtLeast)
    case None => MatchOutcome(None, 0.0)
    case Some(i) => MatchOutcome(Some(stored[i].familyMemberId), scores[i])
  }

  /**
   * `find_match`: one pass over the stored records keeping the running best.
   * A record takes over only when its similarity is strictly above the best
   * so far and at least `threshold`, so on equal similarities the earlier
   * record stays.
   */
  method FindMatch(query: Embedding, stored: seq<EmbeddingRecord>, dist: Distance, threshold: real)
    returns (bestMatchId: Option<string>, bestSimilarity: real)
    ensures MatchOutcome(bestMatchId, bestSimilarity) == Decide(query, stored, dist, threshold)
  {
    ghost var scores := Scores(query, stored, dist);
    ghost var winner: Option<nat> := None;
    bestMatchId, bestSimilarity := None, 0.0;
    for i := 0 to |stored|
      invariant winner.None? ==>
        && bestMatchId.None? && bestSimilarity == 0.0
        && forall j | 0 <= j < i :: !Accepted(AtLeast, scores[j], threshold)
      invariant winner.Some? ==>
        && winner.value < i
        && bestMatchId == Some(stored[winner.value].familyMemberId)
        && bestSimilarity == scores[winner.value]
        && Accepted(AtLeast, bestSimilarity, threshold)
        && (forall j | 0 <= j < i :: scores[j] <= bestSimilarity)
        && (forall j | 0 <= j < winner.value :: scores[j] < bestSimilarity)
    {
      var similarity := CompareEmbeddings(query, stored[i].embedding, dist);
      if similarity > bestSimilarity && similarity >= threshold {
        bestSimilarity := similarity;
        bestMatchId := Some(stored[i].familyMemberId);
        winner := Some(i);
      }
    }
    SelectionUnique(scores, threshold, AtLeast, winner, Selection(scores, threshold, AtLeast));
  }

  /**
   * Enrolling one more record never lowers the confidence of a later match,
   * and it changes the matched member only if the new record is strictly
   * more similar than the previous best. Where nothing matched before, the
   * new record is the match exactly when it clears the threshold.
   */
  lemma AppendNeverLowersConfidence(query: Embedding, stored: seq<EmbeddingRecord>, extra: EmbeddingRecord,
                                    dist: Distance, threshold: real)
    ensures var before := Decide(query, stored, dist, threshold);
      var after := Decide(query, stored + [extra], dist, threshold);
      var similarity := CompareEmbeddings(query, extra.embedding, dist);
      && after.confidence >= before.confidence
      && (before.memberId.Some? && similarity <= before.confidence ==> after == before)
      && (before.memberId.None? && !Accepted(AtLeast, similarity, threshold) ==> after == before)
      && (before.memberId.None? && Accepted(AtLeast, similarity, threshold) ==>
            after == MatchOutcome(Some(extra.familyMemberId), similarity))
  {
    var before := Decide(query, stored, dist, threshold);
    var after := Decide(query, stored + [extra], dist, threshold);
    var all := stored + [extra];
    assert forall j | 0 <= j < |stored| :: all[j] == stored[j];
    assert all[|stored|] == extra;
    if before.memberId.None? {
      var scores := Scores(query, all, dist);
      if Accepted(AtLeast, scores[|stored|], threshold) {
        assert IsSelection(scores, threshold, AtLeast, Some(|stored|));
        SelectionUnique(scores, threshold, AtLeast, Some(|stored|), Selection(scores, threshold, AtLeast));
      }
    }
    if before.memberId.Some? {
      var i :| 0 <= i < |stored| && stored[i].familyMemberId == before.memberId.value
        && CompareEmbeddings(query, stored[i].embedding, dist) == before.confidence
        && forall j | 0 <= j < i :: CompareEmbeddings(query, stored[j].embedding, dist) < before.confidence;
      assert all[i] == stored[i];
      assert Accepted(AtLeast, CompareEmbeddings(query, all[i].embedding, dist), threshold);
      assert after.memberId.Some?;
      if CompareEmbeddings(query, extra.embedding, dist) <= before.confidence {
        var scores := Scores(query, all, dist);
        assert all[|stored|] == extra;
        assert IsSelection(scores, threshold, AtLeast, Some(i));
        SelectionUnique(scores, threshold, AtLeast, Some(i), Selection(scores, threshold, AtLeast));
      }
    }
  }

  /**
   * The confidence does not depend on the order of the stored records (a
   * database gives no order guarantee); only the member chosen among equally
   * similar records of different members does.
   */
  lemma ConfidenceIgnoresOrder(query: Embedding, stored: seq<EmbeddingRecord>, reordered: seq<EmbeddingRecord>,
                               dist: Distance, threshold: real)
    requires multiset(stored) == multiset(reordered)
    ensures Decide(query, stored, dist, threshold).confidence == Decide(query, reordered, dist, threshold).confidence
  {
    var a := Decide(query, stored, dist, threshold);
    var b := Decide(query, reordered, dist, threshold);
    forall r | r in stored ensures r in reordered {
      assert r in multiset(stored);
    }
    forall r | r in reordered ensures r in stored {
      assert r in multiset(reordered);
    }
    if a.memberId.Some? {
      BestIsPresent(query, stored, reordered, dist, threshold);
    }
    if b.memberId.Some? {
      BestIsPresent(query, reordered, stored, dist, threshold);
    }
  }

  /** The best similarity over `xs` is reached by a record that `ys` also holds. */
  lemma BestIsPresent(query: Embedding, xs: seq<EmbeddingRecord>, ys: seq<EmbeddingRecord>,
                      dist: Distance, threshold: real)
    requires forall r | r in xs :: r in ys
    requires forall r | r in ys :: r in xs
    requires Decide(query, xs, dist, threshold).memberId.Some?
    ensures Decide(query, ys, dist, threshold).memberId.Some?
    ensures Decide(query, ys, dist, threshold).confidence == Decide(query, xs, dist, threshold).confidence
  {
    var a := Decide(query, xs, dist, threshold);
    var i :| 0 <= i < |xs| && xs[i].familyMemberId == a.memberId.value
      && CompareEmbeddings(query, xs[i].embedding, dist) == a.confidence
      && forall j | 0 <= j < i :: CompareEmbeddings(query, xs[j].embedding, dist) < a.confidence;
    assert xs[i] in ys;
    var k :| 0 <= k < |ys| && ys[k] == xs[i];
    assert Accepted(AtLeast, CompareEmbeddings(query, ys[k].embedding, dist), threshold);
    var b := Decide(query, ys, dist, threshold);
    assert b.confidence >= a.confidence;
    var m :| 0 <= m < |ys| && ys[m].familyMemberId == b.memberId.value
      && CompareEmbeddings(query, ys[m].embedding, dist) == b.confidence
      && forall j | 0 <= j < m :: CompareEmbeddings(query, ys[j].embedding, dist) < b.confidence;
    assert ys[m] in xs;
    var n :| 0 <= n < |xs| && xs[n] == ys[m];
    assert b.confidence <= a.confidence;
  }
}
