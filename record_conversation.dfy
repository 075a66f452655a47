/**
 * `RecordConversationScreen` of the patient app: the recording state the
 * screen keeps (whether a recording object exists, whether it is running,
 * the elapsed seconds and the transcript), the handlers that change it, the
 * save guard, and the `m:ss` rendering of the elapsed time. Microphone,
 * permissions and timers are outside the model; their outcomes are inputs.
 */
module RecordConversation {
  import opened Text
  import opened Wrappers
  import opened MobileApi

  /** Two decimal digits, zero-padded, for a value below 60. */
  lemma TwoDigits(n: nat)
    requires n < 60
    ensures var p := PadStart(NatToString(n), 2, '0');
      |p| == 2 && AllDigits(p) && ParseDigits(p) == n
  {
    var s := NatToString(n);
    var p := PadStart(s, 2, '0');
    if n < 10 {
      assert p == ['0'] + s;
      assert p[..1] == ['0'];
      assert ParseDigits(p[..1]) == 0;
    } else {
      assert s == NatToString(n / 10) + [DigitChar(n % 10)];
      ParseNatToString(n);
    }
  }

  /**
   * `formatDuration`: whole minutes, a colon, and the remaining seconds as two
   * digits. The seconds field is below 60 and the two fields read back give
   * the duration.
   */
  function FormatDuration(seconds: nat): (text: string)
    ensures var k := |text| - 3;
      && |text| >= 4 && text[k] == ':'
      && text[..k] == NatToString(seconds / 60)
      && AllDigits(text[k + 1..])
      && ParseDigits(text[k + 1..]) < 60
      && ParseDigits(text[..k]) * 60 + ParseDigits(text[k + 1..]) == seconds
  {
    var m, r := seconds / 60, seconds % 60;
    assert m * 60 + r == seconds;
    var mins := NatToString(m);
    var secs := PadStart(NatToString(r), 2, '0');
    TwoDigits(r);
    ParseNatToString(m);
    Fields(mins, secs);
    mins + ":" + secs
  }

  /** Digit fields joined by a colon are read back unchanged either side of it. */
  lemma Fields(mins: string, secs: string)
    requires AllDigits(mins) && AllDigits(secs) && |secs| == 2
    ensures var text := mins + ":" + secs;
      && |text| == |mins| + 3
      && text[|mins|] == ':'
      && text[..|mins|] == mins
      && AllDigits(text[|mins| + 1..])
      && ParseDigits(text[..|mins|]) == ParseDigits(mins)
      && ParseDigits(text[|mins| + 1..]) == ParseDigits(secs)
  {
    Joined(mins, secs);
  }

  /** The two fields of `mins:secs` are found either side of the colon. */
  lemma Joined(mins: string, secs: string)
    requires |secs| == 2
    ensures var text := mins + ":" + secs;
      && |text| == |mins| + 3
      && text[|mins|] == ':'
      && text[..|mins|] == mins
      && text[|mins| + 1..] == secs
  {
    var text := mins + ":" + secs;
    assert text[..|mins|] == mins;
    assert text[|mins| + 1..] == secs;
  }

  /** What `startRecording`'s calls into the audio library came to. */
  datatype StartOutcome = Started | PermissionDenied | StartFailed

  const SAVED_TOPICS: seq<string> := ["conversation", "family"]

  /** The transcript stand-in `stopRecording` writes, since no speech-to-text runs. */
  function PlaceholderTranscript(memberName: string, seconds: nat): (t: string)
    ensures t != ""
  {
    "Conversation with " + memberName + " recorded for " + NatToString(seconds)
    + " seconds. Topics discussed may include family updates, daily activities, and memories."
  }

  class RecordingSession {
    /** `recording` is not null. */
    var hasRecording: bool
    var isRecording: bool
    var duration: nat
    var transcript: string

    /** Only an existing recording can be running. */
    ghost predicate Valid()
      reads this
    {
      isRecording ==> hasRecording
    }

    constructor()
      ensures Valid()
      ensures !hasRecording && !isRecording && duration == 0 && transcript == ""
    {
      hasRecording, isRecording, duration, transcript := false, false, 0, "";
    }

    /**
     * `startRecording`: once the recording has started it is running and the
     * duration starts again from 0; a refused permission or a failure changes
     * nothing. The transcript is kept.
     */
    method StartRecording(outcome: StartOutcome)
      requires Valid()
      modifies this
      ensures Valid()
      ensures outcome.Started? ==> hasRecording && isRecording && duration == 0
      ensures !outcome.Started? ==>
        hasRecording == old(hasRecording) && isRecording == old(isRecording) && duration == old(duration)
      ensures transcript == old(transcript)
    {
      if outcome.Started? {
        hasRecording := true;
        isRecording := true;
        duration := 0;
      }
    }

    /** One second of the interval timer, which exists only while recording. */
    method Tick()
      requires Valid()
      modifies this
      ensures Valid()
      ensures duration == if old(isRecording) then old(duration) + 1 else old(duration)
      ensures hasRecording == old(hasRecording) && isRecording == old(isRecording)
      ensures transcript == old(transcript)
    {
      if isRecording {
        duration := duration + 1;
      }
    }

    /**
     * `stopRecording`: without a recording nothing happens. Otherwise the
     * recording stops; when unloading it succeeds it is released and the
     * placeholder transcript names the member and the duration.
     */
    method StopRecording(memberName: string, unloaded: bool)
      requires Valid()
      modifies this
      ensures Valid()
      ensures !old(hasRecording) ==>
        hasRecording == old(hasRecording) && isRecording == old(isRecording) && transcript == old(transcript)
      ensures old(hasRecording) ==> !isRecording
      ensures old(hasRecording) && unloaded ==>
        !hasRecording && transcript == PlaceholderTranscript(memberName, old(duration))
      ensures old(hasRecording) && !unloaded ==> hasRecording && transcript == old(transcript)
      ensures duration == old(duration)
    {
      if !hasRecording {
        return;
      }
      isRecording := false;
      if unloaded {
        hasRecording := false;
        transcript := PlaceholderTranscript(memberName, duration);
      }
    }

    /** "Record Again": the transcript and the duration are cleared. */
    method RecordAgain()
      requires Valid()
      modifies this
      ensures Valid()
      ensures transcript == "" && duration == 0
      ensures hasRecording == old(hasRecording) && isRecording == old(isRecording)
    {
      transcript := "";
      duration := 0;
    }

    /**
     * `saveConversation`: nothing is sent without a transcript; otherwise the
     * transcript is posted as the summary with the fixed topics.
     */
    method SaveConversation(patientId: string, familyMemberId: string) returns (request: Option<ConversationPayload>)
      ensures request.None? <==> transcript == ""
      ensures request.Some? ==>
        request.value == ConversationPayload(patientId, familyMemberId, transcript, SAVED_TOPICS)
    {
      if transcript == "" {
        return None;
      }
      request := Some(ConversationPayload(patientId, familyMemberId, transcript, SAVED_TOPICS));
    }
  }
}
