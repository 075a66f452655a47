/**
 * The `/recognition` router: enrolment of face and voice embeddings for a
 * family member, recognition of a captured face or voice among the family
 * of one patient, and the greeting for a recognised family member.
 *
 * The `face_embeddings` and `voice_embeddings` collections are two
 * `EmbeddingStore`s; the `family_members` and `conversations` collections
 * are read-only inputs. Extraction of the embedding from the upload happens
 * before these operations and its result is an input.
 */
module Recognition {
  import opened Wrappers
  import opened Seqs
  import opened ObjectIds
  import opened Embeddings
  import opened Matching
  import FaceRecognition
  import VoiceRecognition
  import opened Gemini

  datatype Modality = Face | Voice

  /** The recognition threshold of each modality. */
  function Threshold(modality: Modality): (t: real)
    ensures t > 0.0
  {
    match modality
    case Face => FaceRecognition.THRESHOLD
    case Voice => VoiceRecognition.THRESHOLD
  }

  /** A document of the `family_members` collection, as far as these routes read it. */
  datatype FamilyMember = FamilyMember(name: string, relationship: string, patientId: string)

  /** A document of the `conversations` collection. */
  datatype Conversation = Conversation(
    patientId: string,
    familyMemberId: string,
    summary: string,
    topics: seq<string>,
    createdAt: int)

  /** `family_members.find_one({"_id": ObjectId(id)})`, for an id that parses. */
  function FindMember(members: map<ObjectId, FamilyMember>, id: string): (r: Option<FamilyMember>)
    ensures r.Some? <==> Parse(id).Some? && Parse(id).value in members
    ensures r.Some? ==> r.value == members[Parse(id).value]
  {
    match Parse(id)
    case None => None
    case Some(oid) => if oid in members then Some(members[oid]) else None
  }

  /** The filter of the last-conversation lookups: the member, and the patient when one is given. */
  predicate Concerns(c: Conversation, patientId: Option<string>, memberId: string) {
    && c.familyMemberId == memberId
    && (patientId.None? || c.patientId == patientId.value)
  }

  /**
   * `conversations.find_one(filter, sort=[("created_at", -1)])`: a newest
   * conversation among those the filter selects, or `None` if there is none.
   */
  function LatestConversation(conversations: seq<Conversation>, patientId: Option<string>, memberId: string)
    : (r: Option<Conversation>)
    ensures r.None? <==> forall c | c in conversations :: !Concerns(c, patientId, memberId)
    ensures r.Some? ==>
      && r.value in conversations
      && Concerns(r.value, patientId, memberId)
      && forall c | c in conversations && Concerns(c, patientId, memberId) :: c.createdAt <= r.value.createdAt
  {
    if conversations == [] then None
    else
      var c := conversations[0];
      var rest := LatestConversation(conversations[1..], patientId, memberId);
      assert conversations == [c] + conversations[1..];
      if Concerns(c, patientId, memberId) && (rest.None? || rest.value.createdAt <= c.createdAt) then Some(c)
      else rest
  }

  /** Records the recognition query selects: `find({"patient_id": patient_id})`. */
  function ForPatient(patientId: string): EmbeddingRecord -> bool {
    (r: EmbeddingRecord) => r.patientId == patientId
  }

  /** `to_list(1000)`: the recognition routes read at most this many records. */
  const MAX_CANDIDATES: nat := 1000

  /**
   * The candidates of one recognition: records of the requested patient only,
   * at most 1000 of them, in store order. Fewer than 1000 means none of the
   * patient's records was left out.
   */
  function Partition(records: seq<EmbeddingRecord>, patientId: string): (candidates: seq<EmbeddingRecord>)
    ensures |candidates| <= MAX_CANDIDATES
    ensures forall r | r in candidates :: r in records && r.patientId == patientId
    ensures |candidates| < MAX_CANDIDATES ==>
      forall r | r in records && r.patientId == patientId :: r in candidates
  {
    Take(Filter(records, ForPatient(patientId)), MAX_CANDIDATES)
  }

  /** Enrolling for one patient leaves every other patient's candidates as they were. */
  lemma PartitionOtherPatient(records: seq<EmbeddingRecord>, added: EmbeddingRecord, patientId: string)
    requires added.patientId != patientId
    ensures Partition(records + [added], patientId) == Partition(records, patientId)
  {
    FilterAppend(records, [added], ForPatient(patientId));
    assert Filter([added], ForPatient(patientId)) == [];
  }

  /**
   * Enrolling for a patient with fewer than 1000 records makes the new
   * record the last candidate of that patient's next recognition.
   */
  lemma PartitionSamePatient(records: seq<EmbeddingRecord>, added: EmbeddingRecord, patientId: string)
    requires added.patientId == patientId
    requires |Partition(records, patientId)| < MAX_CANDIDATES
    ensures Partition(records + [added], patientId) == Partition(records, patientId) + [added]
  {
    FilterAppend(records, [added], ForPatient(patientId));
    assert Filter([added], ForPatient(patientId)) == [added];
  }

  /** The outcome of a registration route. */
  datatype RegisterOutcome =
    | Registered(embeddingId: nat)
    /** `ObjectId(family_member_id)` raised `InvalidId`: an unhandled error, status 500. */
    | InvalidMemberId
    | HttpError(status: nat, detail: string)

  const MEMBER_NOT_FOUND: string := "Family member not found"

  function NoEmbeddingDetail(modality: Modality): string {
    match modality
    case Face => "Could not detect a face in the image"
    case Voice => "Could not extract voice features from audio"
  }

  /** A `face_embeddings` or `voice_embeddings` collection: append-only. */
  class EmbeddingStore {
    var records: seq<EmbeddingRecord>

    /** Every stored record names its family member by an id `ObjectId` accepts. */
    ghost predicate Valid()
      reads this
    {
      forall i | 0 <= i < |records| :: Parse(records[i].familyMemberId).Some?
    }

    constructor()
      ensures Valid() && records == []
    {
      records := [];
    }

    /**
     * `register_face` / `register_voice`, given what extraction produced.
     * The member is looked up first: an unknown id fails before extraction
     * (`extracted` is false) and nothing is stored; so does a failed
     * extraction. Otherwise exactly one record is appended, tagged with the
     * patient of the member document, and its position is its id.
     */
    method Register(modality: Modality, familyMemberId: string, members: map<ObjectId, FamilyMember>,
                    embedding: Option<Embedding>, now: int)
      returns (outcome: RegisterOutcome, ghost extracted: bool)
      requires Valid()
      modifies this
      ensures Valid()
      ensures Parse(familyMemberId).None? ==>
        outcome == InvalidMemberId && !extracted && records == old(records)
      ensures Parse(familyMemberId).Some? && FindMember(members, familyMemberId).None? ==>
        outcome == HttpError(404, MEMBER_NOT_FOUND) && !extracted && records == old(records)
      ensures FindMember(members, familyMemberId).Some? ==> extracted
      ensures FindMember(members, familyMemberId).Some? && embedding.None? ==>
        outcome == HttpError(400, NoEmbeddingDetail(modality)) && records == old(records)
      ensures FindMember(members, familyMemberId).Some? && embedding.Some? ==>
        && outcome == Registered(|old(records)|)
        && records == old(records) + [EmbeddingRecord(familyMemberId,
                                                     FindMember(members, familyMemberId).value.patientId,
                                                     embedding.value, now)]
    {
      extracted := false;
      var oid := Parse(familyMemberId);
      if oid.None? {
        return InvalidMemberId, extracted;
      }
      if oid.value !in members {
        return HttpError(404, MEMBER_NOT_FOUND), extracted;
      }
      var member := members[oid.value];
      extracted := true;
      if embedding.None? {
        return HttpError(400, NoEmbeddingDetail(modality)), extracted;
      }
      var id := |records|;
      records := records + [EmbeddingRecord(familyMemberId, member.patientId, embedding.value, now)];
      outcome := Registered(id);
    }
  }

  /** The `RecognitionResult` response model. */
  datatype RecognitionResult = RecognitionResult(
    recognized: bool,
    familyMemberId: Option<string>,
    familyMemberName: Option<string>,
    relationship: Option<string>,
    confidence: real,
    lastConversation: Option<Conversation>)

  function NotRecognized(confidence: real): RecognitionResult {
    RecognitionResult(false, None, None, None, confidence, None)
  }

  /** A member `find_match` returns from a valid store's candidates is always an id `ObjectId` accepts. */
  lemma MatchedIdParses(records: seq<EmbeddingRecord>, patientId: string, query: Embedding, dist: Distance, threshold: real)
    requires forall i | 0 <= i < |records| :: Parse(records[i].familyMemberId).Some?
    requires Decide(query, Partition(records, patientId), dist, threshold).memberId.Some?
    ensures var id := Decide(query, Partition(records, patientId), dist, threshold).memberId.value;
      && Parse(id).Some?
      && exists r | r in records :: r.patientId == patientId && r.familyMemberId == id
  {
    var candidates := Partition(records, patientId);
    var m := Decide(query, candidates, dist, threshold);
    var i :| 0 <= i < |candidates| && candidates[i].familyMemberId == m.memberId.value
      && CompareEmbeddings(query, candidates[i].embedding, dist) == m.confidence
      && forall j | 0 <= j < i :: CompareEmbeddings(query, candidates[j].embedding, dist) < m.confidence;
    assert candidates[i] in records;
  }

  /** The `find_match` of the face or the voice service. */
  method FindMatch(modality: Modality, query: Embedding, candidates: seq<EmbeddingRecord>, dist: Distance)
    returns (matchId: Option<string>, confidence: real)
    ensures MatchOutcome(matchId, confidence) == Decide(query, candidates, dist, Threshold(modality))
  {
    match modality
    case Face => matchId, confidence := FaceRecognition.FindMatch(query, candidates, dist);
    case Voice => matchId, confidence := VoiceRecognition.FindMatch(query, candidates, dist);
  }

  /**
   * `recognize_face` / `recognize_voice`, given what extraction produced.
   * A failed extraction or an empty candidate list gives `recognized=False`
   * with confidence 0.0. Otherwise the modality's `find_match` runs over the
   * patient's candidates; the result is recognised exactly when it names a
   * member and that member's document exists, and carries the member's
   * details and the newest conversation of that patient with that member.
   * A match whose member document is missing keeps its confidence.
   */
  method Recognize(modality: Modality, store: EmbeddingStore, members: map<ObjectId, FamilyMember>,
                   conversations: seq<Conversation>, patientId: string, query: Option<Embedding>,
                   dist: Distance)
    returns (result: RecognitionResult)
    requires store.Valid()
    ensures query.None? ==> result == NotRecognized(0.0)
    ensures !result.recognized ==> result == NotRecognized(result.confidence)
    ensures query.Some? ==>
      var m := Decide(query.value, Partition(store.records, patientId), dist, Threshold(modality));
      && result.confidence == m.confidence
      && (result.recognized <==> m.memberId.Some? && FindMember(members, m.memberId.value).Some?)
      && (result.recognized ==>
            var member := FindMember(members, m.memberId.value).value;
            && result.familyMemberId == m.memberId
            && result.familyMemberName == Some(member.name)
            && result.relationship == Some(member.relationship)
            && result.lastConversation == LatestConversation(conversations, Some(patientId), m.memberId.value))
    ensures result.recognized ==>
      && result.confidence >= Threshold(modality)
      && result.familyMemberId.Some?
      && exists r | r in store.records :: r.patientId == patientId && r.familyMemberId == result.familyMemberId.value
  {
    if query.None? {
      return NotRecognized(0.0);
    }
    var candidates := Partition(store.records, patientId);
    if candidates == [] {
      return NotRecognized(0.0);
    }
    var matchId, confidence := FindMatch(modality, query.value, candidates, dist);
    if matchId.None? {
      return NotRecognized(confidence);
    }
    MatchedIdParses(store.records, patientId, query.value, dist, Threshold(modality));
    var oid := Parse(matchId.value).value;
    if oid !in members {
      return NotRecognized(confidence);
    }
    var member := members[oid];
    var last := LatestConversation(conversations, Some(patientId), matchId.value);
    result := RecognitionResult(true, matchId, Some(member.name), Some(member.relationship), confidence, last);
  }

  /** The outcome of the greeting route. */
  datatype GreetingOutcome =
    | Greeting(greeting: string)
    | GreetingInvalidMemberId
    | GreetingError(status: nat, detail: string)

  /**
   * `get_recognition_greeting`: 404 for an unknown member; otherwise the
   * service's greeting for the member, given the summary of the newest
   * conversation with that member (with any patient), if there is one.
   */
  method RecognitionGreeting(service: GeminiService, familyMemberId: string,
                             members: map<ObjectId, FamilyMember>, conversations: seq<Conversation>,
                             reply: LlmReply)
    returns (outcome: GreetingOutcome)
    requires service.Valid()
    modifies service
    ensures service.Valid()
    ensures Parse(familyMemberId).None? ==> outcome == GreetingInvalidMemberId
    ensures Parse(familyMemberId).Some? && FindMember(members, familyMemberId).None? ==>
      outcome == GreetingError(404, MEMBER_NOT_FOUND)
    ensures FindMember(members, familyMemberId).None? ==> service.model == old(service.model)
    ensures old(service.model).Some? ==> service.model == old(service.model)
    ensures old(service.model).None? && FindMember(members, familyMemberId).Some? ==>
      (service.model.Some? <==> service.apiKey != "")
    ensures FindMember(members, familyMemberId).Some? ==>
      var member := FindMember(members, familyMemberId).value;
      var last := LatestConversation(conversations, None, familyMemberId);
      var lastSummary := if last.Some? then Some(last.value.summary) else None;
      && outcome.Greeting?
      && (service.model.Some? && reply.Reply? ==> outcome.greeting == reply.text)
      && (service.model.None? || reply.Raised? ==>
            outcome.greeting == FallbackGreeting(member.name, member.relationship, lastSummary))
  {
    var oid := Parse(familyMemberId);
    if oid.None? {
      return GreetingInvalidMemberId;
    }
    if oid.value !in members {
      return GreetingError(404, MEMBER_NOT_FOUND);
    }
    var member := members[oid.value];
    var last := LatestConversation(conversations, None, familyMemberId);
    var lastSummary := if last.Some? then Some(last.value.summary) else None;
    var greeting := service.GenerateRecognitionGreeting(member.name, member.relationship, lastSummary, reply);
    outcome := Greeting(greeting);
  }
}
