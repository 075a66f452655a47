/**
 * `patient_face_login` of the auth router: a patient logs in by showing
 * their face, which is matched against the face embeddings stored on the
 * patient documents. Decoding the image, extracting the embedding and
 * creating the Firebase token are outside the model; their results are
 * inputs.
 */
module Auth {
  import opened Wrappers
  import opened Seqs
  import opened Embeddings
  import opened Matching
  import FaceRecognition

  /** A document of the `patients` collection, as far as the login reads it. */
  datatype PatientDoc = PatientDoc(
    /** `None` where the document has no `firebase_uid` key. */
    firebaseUid: Option<string>,
    /** `None` where the document has no `name` key. */
    name: Option<string>,
    faceEmbedding: Option<Embedding>)

  /** What decoding the base64 image and extracting a face embedding gave. */
  datatype FaceImage = Undecodable | NoFace | Face(embedding: Embedding)

  datatype LoginResponse =
    | LoggedIn(firebaseToken: string, patientName: string)
    | Rejected(message: string)
    | HttpError(status: nat)

  /** `find().to_list(100)`: the login scans at most this many patients. */
  const MAX_PATIENTS: nat := 100

  const NO_FACE_MESSAGE: string := "No face detected in image"
  const NOT_RECOGNIZED_MESSAGE: string := "Face not recognized. Please register first or use email login."
  const DEFAULT_PATIENT_NAME: string := "Patient"

  /** A patient is compared only when its `face_embedding` is present and non-empty. */
  predicate IsCandidate(p: PatientDoc) {
    p.faceEmbedding.Some? && p.faceEmbedding.value != []
  }

  /**
   * The score each patient gets in the scan: its similarity when it is a
   * candidate, and 0.0 (which the scan can never accept) when it is skipped.
   */
  function LoginScores(query: Embedding, patients: seq<PatientDoc>, dist: Distance): (scores: seq<real>)
    ensures |scores| == |patients|
    ensures forall i | 0 <= i < |patients| ::
      scores[i] == if IsCandidate(patients[i]) then CompareEmbeddings(query, patients[i].faceEmbedding.value, dist) else 0.0
  {
    seq(|patients|, i requires 0 <= i < |patients| =>
      if IsCandidate(patients[i]) then CompareEmbeddings(query, patients[i].faceEmbedding.value, dist) else 0.0)
  }

  /**
   * The scan of `patient_face_login`: a candidate takes over when its
   * similarity is strictly above the best so far and strictly above the face
   * threshold. The winner is a candidate with the highest similarity, the
   * earliest one on ties; patients without an embedding are never chosen.
   */
  method BestPatient(query: Embedding, patients: seq<PatientDoc>, dist: Distance)
    returns (bestMatch: Option<nat>, bestSimilarity: real)
    ensures bestMatch == Selection(LoginScores(query, patients, dist), FaceRecognition.THRESHOLD, Above)
    ensures bestMatch.None? <==> bestSimilarity == 0.0
    ensures bestMatch.Some? ==>
      && bestMatch.value < |patients|
      && IsCandidate(patients[bestMatch.value])
      && bestSimilarity == CompareEmbeddings(query, patients[bestMatch.value].faceEmbedding.value, dist)
      && bestSimilarity > FaceRecognition.THRESHOLD
  {
    ghost var scores := LoginScores(query, patients, dist);
    bestMatch, bestSimilarity := None, 0.0;
    for i := 0 to |patients|
      invariant bestMatch.None? ==>
        && bestSimilarity == 0.0
        && forall j | 0 <= j < i :: !Accepted(Above, scores[j], FaceRecognition.THRESHOLD)
      invariant bestMatch.Some? ==>
        && bestMatch.value < i
        && IsCandidate(patients[bestMatch.value])
        && bestSimilarity == scores[bestMatch.value]
        && Accepted(Above, bestSimilarity, FaceRecognition.THRESHOLD)
        && (forall j | 0 <= j < i :: scores[j] <= bestSimilarity)
        && (forall j | 0 <= j < bestMatch.value :: scores[j] < bestSimilarity)
    {
      var patient := patients[i];
      if IsCandidate(patient) {
        var similarity := CompareEmbeddings(query, patient.faceEmbedding.value, dist);
        if similarity > bestSimilarity && similarity > FaceRecognition.THRESHOLD {
          bestSimilarity := similarity;
          bestMatch := Some(i);
        }
      }
    }
    SelectionUnique(scores, FaceRecognition.THRESHOLD, Above, bestMatch,
                    Selection(scores, FaceRecognition.THRESHOLD, Above));
  }

  /**
   * `patient_face_login`. An undecodable image is a 400; an image without a
   * face is refused with a message. Otherwise the first 100 patients are
   * scanned; with no winner the login is refused, and with a winner a token
   * is created for its `firebase_uid`, the name defaulting to "Patient". A
   * missing uid or a failed token creation raises inside the handler and
   * surfaces as a 400.
   */
  method PatientFaceLogin(image: FaceImage, patients: seq<PatientDoc>, dist: Distance,
                          createToken: string -> Option<string>)
    returns (response: LoginResponse)
    ensures image.Undecodable? ==> response == HttpError(400)
    ensures image.NoFace? ==> response == Rejected(NO_FACE_MESSAGE)
    ensures image.Face? ==>
      var scanned := Take(patients, MAX_PATIENTS);
      match Selection(LoginScores(image.embedding, scanned, dist), FaceRecognition.THRESHOLD, Above)
      case None => response == Rejected(NOT_RECOGNIZED_MESSAGE)
      case Some(k) =>
        var winner := scanned[k];
        if winner.firebaseUid.Some? && createToken(winner.firebaseUid.value).Some? then
          response == LoggedIn(createToken(winner.firebaseUid.value).value, winner.name.GetOr(DEFAULT_PATIENT_NAME))
        else
          response == HttpError(400)
    ensures response.LoggedIn? ==>
      && image.Face?
      && exists i | 0 <= i < |patients| && i < MAX_PATIENTS ::
           && IsCandidate(patients[i])
           && CompareEmbeddings(image.embedding, patients[i].faceEmbedding.value, dist) > FaceRecognition.THRESHOLD
           && patients[i].firebaseUid.Some?
           && createToken(patients[i].firebaseUid.value) == Some(response.firebaseToken)
  {
    match image
    case Undecodable =>
      return HttpError(400);
    case NoFace =>
      return Rejected(NO_FACE_MESSAGE);
    case Face(embedding) =>
      var scanned := Take(patients, MAX_PATIENTS);
      var bestMatch, _ := BestPatient(embedding, scanned, dist);
      if bestMatch.None? {
        return Rejected(NOT_RECOGNIZED_MESSAGE);
      }
      var winner := scanned[bestMatch.value];
      assert winner == patients[bestMatch.value];
      if winner.firebaseUid.None? {
        return HttpError(400);
      }
      var token := createToken(winner.firebaseUid.value);
      if token.None? {
        return HttpError(400);
      }
      response := LoggedIn(token.value, winner.name.GetOr(DEFAULT_PATIENT_NAME));
  }
}
