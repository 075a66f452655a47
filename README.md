# Biometric recognition for an Alzheimer's companion app — Dafny model

The app helps a patient recognise the family members who visit them. Each
family member enrols face and voice embeddings. When a face or voice is
captured later, the backend compares it with the embeddings enrolled for
that patient's family. It accepts the single best candidate only if its
similarity clears a threshold. A patient can also log in by face, which
matches the captured face against the embeddings stored on patient records.

This project models that core and proves properties of it:

- `Matching`: best-match selection, the algorithm shared by `find_match`
  of the face and voice services and by the patient face login. The loop
  in `FindMatch` is proved against `Selection`. `Selection` is a loop-free
  statement: the first position of the highest similarity, accepted only
  if it is positive and clears the threshold.
- `Embeddings`: the similarity of two embeddings (`compare_embeddings`)
  and the data-URL handling of `extract_embedding_from_base64`.
- `FaceRecognition`, `VoiceRecognition`: `find_match` with each modality's
  threshold (0.6 and 0.75, module `Config`). For voice, also the short-audio
  guard and the 240-value layout of the voice embedding, with a proof that
  the layout can be read back.
- `Recognition`: the `/recognition` router.
  - Enrolment: class `EmbeddingStore`, an append-only collection.
  - Recognition: the patient partition, the 1000-record cap, the decision
    flow and the newest-conversation lookup.
  - The greeting route.
- `Auth`: `patient_face_login` — the scan over at most 100 patients with a
  strict `>` threshold, then token issue.
- `Gemini`: the lazily created model, the `None` results of the
  conversation summary, and the fallback greeting.
- `Suggestions`: the code-fence cleanup applied to model output before JSON
  parsing, the error-result shapes, and the prompt lines that depend on the
  months a user has spent in Canada.
- `AddConversation`, `RecordConversation`, `FamilyHome`: the mobile
  helpers.
  - Topic toggling, and the guard and payload of saving a conversation.
  - The recording state and its handlers, and the `m:ss` duration format.
  - The shortened patient id.
- Supporting modules: `Text` (Python `strip`/JS `trim`, `startswith`,
  `split(sep)[1]`, decimal rendering, `padStart`), `Seqs` (list filter,
  `to_list(n)`), `ObjectIds` (BSON `ObjectId` parsing) and `Wrappers`
  (`Option`, `Result`).

External calls become parameters:

- The similarity oracle is `Distance`, scipy's cosine distance; `None`
  stands for an exception.
- The model's answer is `LlmReply`.
- JSON parsing, token creation and base64 decoding are also parameters.
- What DeepFace or librosa extracted is an input (`Option<Embedding>`,
  `AudioAnalysis`, `FaceImage`).
- The MongoDB collections are sequences and maps.

Behaviour of the code worth knowing:

- When nothing clears the threshold, `find_match` returns confidence 0.0.
  It does not report the best near-miss similarity
  (`Matching.Decide`).
- There is no dimension check. Embeddings of different lengths make the
  comparison raise, and the result is similarity 0.0, not an invalid-query
  error (`Embeddings.CompareEmbeddings`).
- Enrolment does not validate the embedding. There is no operation that
  removes an owner's records: `EmbeddingStore` only appends.
- The face login accepts a similarity only when it is strictly above the
  threshold. `find_match` accepts one that equals it
  (`Matching.GatesDifferAtThreshold`).
- The 1600-sample check is not the effective minimum for voice. With
  librosa's defaults, the delta features need at least 9 MFCC frames, that
  is about 4096 samples (0.256 s at 16 kHz). A shorter clip makes the
  analysis raise, and extraction returns no embedding
  (`VoiceRecognition.ExtractEmbedding`, via `AnalysisFailed`).

## Model

| member | source | states |
|---|---|---|
| Embeddings.CompareEmbeddings | backend/services/face_recognition.py:53-64 | similarity is 1 − cosine distance; a comparison that raises (in particular a length mismatch) gives 0.0 |
| Embeddings.StripDataUrlPrefix | backend/services/face_recognition.py:44-45 | text without a comma is kept whole; otherwise the result is exactly the characters between the first comma and the next comma (or the end), and it holds no comma |
| Embeddings.DataUrlPayload | backend/services/voice_recognition.py:71-72 | for `header,payload` with comma-free parts the payload is recovered, and a bare payload is unchanged |
| Embeddings.ExtractFromBase64 | backend/services/face_recognition.py:42-51 | a decode failure gives no embedding; otherwise the extractor's result on the bytes decoded from the stripped text |
| Matching.Selection | backend/services/face_recognition.py:72-85 | the chosen position is the first one holding the maximum similarity, and is chosen only if that similarity is positive and clears the gate; otherwise no similarity is acceptable |
| Matching.SelectionUnique | backend/services/face_recognition.py:75-83 | the loop-free description of the scan admits exactly one outcome |
| Matching.Decide | backend/services/face_recognition.py:72-85 | empty list gives (None, 0.0); None exactly when confidence is 0.0 and exactly when no similarity is positive and ≥ threshold; a match has confidence > 0 and ≥ threshold, equal to the maximum similarity, and names the earliest record with that similarity |
| Matching.FindMatch | backend/services/face_recognition.py:66-85 | the running-best loop returns exactly `Decide`'s member and confidence |
| Matching.AppendNeverLowersConfidence | backend/services/face_recognition.py:75-83 | enrolling one more record never lowers the confidence, and leaves the result unchanged unless the new record is strictly more similar than the current match; where nothing matched before, the new record becomes the match exactly when it clears the threshold, with its own similarity as the confidence |
| Matching.ConfidenceIgnoresOrder | backend/services/face_recognition.py:75-85 | any reordering of the candidate records handed to the scan gives the same confidence |
| Matching.GatesDifferAtThreshold | backend/routers/auth.py:95 | when the best similarity equals the (positive) threshold, the `>=` scan matches and the `>` scan does not |
| FaceRecognition.FindMatch | backend/services/face_recognition.py:66-85 | with threshold 0.6: a member is returned exactly when some record scores ≥ 0.6, with confidence ≥ 0.6; otherwise confidence 0.0 |
| VoiceRecognition.FindMatch | backend/services/voice_recognition.py:94-116 | with threshold 0.75: a member is returned exactly when some record scores ≥ 0.75, with confidence ≥ 0.75; otherwise (None, 0.0) |
| VoiceRecognition.ExtractEmbedding | backend/services/voice_recognition.py:35-55 | fewer than 1600 samples, or an analysis that raised, gives no embedding; otherwise mean, std, min, max of each MFCC row, then mean, std of each delta row — 240 values for 40 rows |
| VoiceRecognition.LayoutRoundTrip | backend/services/voice_recognition.py:43-54 | every row statistic can be read back from the embedding |
| ObjectIds.Parse | backend/routers/recognition.py:25 | the model's `ObjectId(text)` succeeds exactly on 24 hex digits and yields a canonical lower-case id |
| ObjectIds.ParseIgnoresCase | backend/routers/recognition.py:25 | two id texts that differ only in the case of their hex letters name the same id |
| ObjectIds.ParsePrinted | backend/routers/recognition.py:91 | the printed form of an id parses back to the same id |
| Recognition.FindMember | backend/routers/recognition.py:25-26 | the member document is found exactly when the id parses and names a stored member |
| Recognition.Partition | backend/routers/recognition.py:75-77 | candidates are only the requested patient's records, at most 1000, and with fewer than 1000 none of that patient's records is missing |
| Recognition.PartitionOtherPatient | backend/routers/recognition.py:43-50 | enrolling for one patient does not change another patient's candidates |
| Recognition.PartitionSamePatient | backend/routers/recognition.py:43-50 | below the cap, an enrolled record becomes the last candidate of its patient |
| Recognition.LatestConversation | backend/routers/recognition.py:96-99 | None exactly when no conversation matches the filter; otherwise a matching conversation whose `created_at` is the largest |
| Recognition.EmbeddingStore.Register | backend/routers/recognition.py:15-55 | invalid id → error, unknown member → 404 before extraction, no embedding → 400, all with the store unchanged; otherwise exactly one record is appended with the member document's `patient_id`; stored ids always parse |
| Recognition.MatchedIdParses | backend/routers/recognition.py:91 | a matched member id from a valid store is accepted by `ObjectId` and belongs to a record of the requested patient |
| Recognition.Recognize | backend/routers/recognition.py:58-113 | no query → not recognised, 0.0; otherwise the confidence is `find_match`'s on the patient's candidates, recognised exactly when a member is matched and exists, carrying its name, relationship and newest conversation with that patient; a missing member keeps the confidence |
| Recognition.RecognitionGreeting | backend/routers/recognition.py:217-246 | unknown member → 404; otherwise the model's greeting, or the fallback greeting built with the newest conversation's summary; a model once created is kept, and one is created on first use exactly when an API key is configured |
| Recognition.Threshold | backend/config.py:20-21 | both default thresholds are positive |
| Auth.LoginScores | backend/routers/auth.py:90-93 | patients without a non-empty face embedding score 0.0 and are never compared |
| Auth.BestPatient | backend/routers/auth.py:88-97 | the scan's winner is `Selection` with the strict gate: a candidate with the highest similarity, earliest on ties, strictly above 0.6 |
| Auth.PatientFaceLogin | backend/routers/auth.py:77-118 | undecodable image → 400; no face → refusal message; only the first 100 patients are scanned; no winner → refusal; a token failure → 400; a login implies some scanned candidate scored above 0.6 and the token is the one created for its uid; the name defaults to "Patient" |
| Gemini.FallbackGreeting | backend/services/gemini_service.py:59-63 | "This is {name}, your {relationship}." exactly when the summary is missing or empty; otherwise that text followed by " Last time you talked about: {summary}" |
| Gemini.GeminiService.GetModel | backend/services/gemini_service.py:12-16 | the model is created at most once, and only with a non-empty API key; later calls return the same model |
| Gemini.GeminiService.GenerateConversationSummary | backend/services/gemini_service.py:18-49 | a summary exactly when a model exists and the call answers; None otherwise |
| Gemini.GeminiService.GenerateRecognitionGreeting | backend/services/gemini_service.py:51-85 | the model's answer, or the fallback greeting when there is no model or the call raises |
| Suggestions.MonthsInCanada | backend/app/services/gemini_service.py:17 | a missing or falsy value counts as 0 months |
| Suggestions.LanguageClassesLine | backend/app/services/gemini_service.py:40 | the language-class line appears exactly when the months are below 12 |
| Suggestions.SettlementLine | backend/app/services/gemini_service.py:41 | the settlement line appears exactly when the months are below 6, and then the language-class line appears too |
| Suggestions.CleanModelText | backend/app/services/gemini_service.py:72-79 | text not opening with a fence is only stripped; text opening with a fence keeps what lies between it and the next fence (or the end), less a leading `json` tag, stripped; the result never starts or ends with whitespace |
| Suggestions.DropJsonTag | backend/app/services/gemini_service.py:77-78 | a leading `json` is removed once; other text is unchanged |
| Suggestions.FencedText | backend/app/services/gemini_service.py:75-76 | a fenced block with a backtick-free body yields exactly that body, stripped |
| Suggestions.FencedJsonText | backend/app/services/gemini_service.py:75-78 | a ```json block with a backtick-free body yields that body without the tag, stripped |
| Suggestions.ProfilePromptLines | backend/app/services/gemini_service.py:17-41 | the language-class line is asked for exactly below 12 months in Canada and the settlement line exactly below 6, a missing value counting as 0; settlement implies language classes |
| Suggestions.GetProfileSuggestions | backend/app/services/gemini_service.py:13-83 | the model is asked with the profile's conditional lines; the parsed document, or on any failure a result with no places, no tips and the error message |
| Suggestions.SearchSuggestions | backend/app/services/gemini_service.py:116-129 | the parsed document, or on any failure a result with no places and the error message |
| AddConversation.ToggleTopic | mobile/src/screens/family/AddConversationScreen.js:28-34 | an absent topic is appended at the end; a present one disappears entirely; the count of every other topic is unchanged |
| AddConversation.RemoveKeepsOrder | mobile/src/screens/family/AddConversationScreen.js:30-31 | removing a topic joins the topics before and after it, in order |
| AddConversation.ToggleTwice | mobile/src/screens/family/AddConversationScreen.js:28-34 | toggling an absent topic twice restores the selection |
| AddConversation.ToggleKeepsNoDuplicates | mobile/src/screens/family/AddConversationScreen.js:28-34 | toggling never introduces a duplicate into a duplicate-free selection |
| AddConversation.HandleSave | mobile/src/screens/family/AddConversationScreen.js:36-49 | refused exactly when the summary is all whitespace; otherwise the payload carries the trimmed, non-blank summary and the selected topics |
| RecordConversation.FormatDuration | mobile/src/screens/patient/RecordConversationScreen.js:134-138 | minutes, a colon, and two digits of seconds below 60; minutes × 60 + seconds gives the duration back |
| RecordConversation.RecordingSession.StartRecording | mobile/src/screens/patient/RecordConversationScreen.js:34-80 | a started recording is running with duration 0; a refused or failed start changes nothing |
| RecordConversation.RecordingSession.Tick | mobile/src/screens/patient/RecordConversationScreen.js:24-32 | the duration grows by one second only while recording |
| RecordConversation.RecordingSession.StopRecording | mobile/src/screens/patient/RecordConversationScreen.js:83-104 | without a recording nothing happens; otherwise recording stops, and a successful unload sets the placeholder transcript naming the member and duration |
| RecordConversation.RecordingSession.RecordAgain | mobile/src/screens/patient/RecordConversationScreen.js:214-219 | transcript and duration are cleared |
| RecordConversation.RecordingSession.SaveConversation | mobile/src/screens/patient/RecordConversationScreen.js:106-131 | nothing is sent exactly when the transcript is empty; otherwise the transcript goes out with the topics `conversation`, `family` |
| FamilyHome.ShortenId | mobile/src/screens/family/FamilyHomeScreen.js:28-31 | "" for a missing or empty id; otherwise up to 4 leading characters, "...", up to 4 trailing ones; length 11 from 8 characters on; an id of at most 4 characters appears twice |

## Left out

- Embedding extraction is not modelled: DeepFace, librosa's MFCC and delta computation, numpy statistics, temporary files and base64 decoding are library calls. Their results are inputs.
- The cosine distance is floating-point arithmetic and is not modelled. It is the parameter `Distance`, and `real` stands for Python floats, so rounding is not modelled either.
- MongoDB, FastAPI and Firebase are not modelled. Collections are sequences and maps. `to_list(n)` returns records in store order, and ties in the `created_at` sort are resolved by the earliest conversation. MongoDB guarantees neither. `Matching.ConfidenceIgnoresOrder` shows that the confidence does not depend on the order of the candidates once they are chosen, so the confidence is order-independent only while a patient has fewer than 1000 records (and, for the login, while there are fewer than 100 patients).
- Order beyond the caps: `Recognition.Partition` keeps the first 1000 of a patient's records and the login scans the first 100 patients, in store order. Beyond these caps the store order decides which records are compared at all, so it can change the match and the confidence; the model fixes one order and does not promise anything across orders there.
- ObjectIds.Parse: bson's `ObjectId(text)` checks the length and then decodes with `bytes.fromhex`, which skips ASCII whitespace. A 24-character text with whitespace between hex pairs therefore does not raise in the code; it reaches a lookup that finds no member. The model treats such texts as invalid ids (`InvalidMemberId`, `GreetingInvalidMemberId`) instead of modelling that lookup.
- Thresholds: `Config` holds the defaults of the `Settings` class (0.6 and 0.75). The class reads `.env` and the environment, and overrides are not modelled. Recognition.Threshold and FaceRecognition.FindMatch state their results for these defaults; with a threshold of 0 or less, the "exactly when some record scores at least the threshold" statement no longer holds, because a score must also be above 0.0.
- Recognition.EmbeddingStore.Register: the embedding id is the record's position, not a generated `ObjectId`, and the creation time is a parameter.
- Recognition.EmbeddingStore.Register: an unknown id gives `InvalidMemberId`, standing for the unhandled `InvalidId` (a 500). The extractor's result is an input; the ghost result `extracted` records whether the code would have run extraction, which happens only after the member is found.
- Auth.PatientFaceLogin: the HTTP detail text of the 400 and the 500 raised inside the handler are not modelled, only the status. A `name` key holding `None` is not distinguished from a present name.
- Gemini.GeminiService.GenerateConversationSummary and Gemini.GeminiService.GenerateRecognitionGreeting: prompt wording is not modelled, and the reply is an input.
- Suggestions.GetProfileSuggestions: the prompt text, apart from the two conditional lines, is not modelled. A stored value of a non-numeric type (which would raise outside the `try`) is not modelled.
- Whitespace: `strip()` and `trim()` are modelled with the characters Python's `str.isspace()` and JavaScript's `trim()` remove, listed in `Text`.
- RecordConversation.FormatDuration: a duration is a natural number. JavaScript number formatting of very large or fractional values is not modelled.
- Microphone permissions, the audio library, timers, alerts, navigation and rendering in the mobile screens are not modelled. Their outcomes are the inputs of the `RecordingSession` methods. The result of posting a conversation is not modelled.
- Concurrency (async handlers, concurrent inserts) is not modelled.
