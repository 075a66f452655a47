/**
 * The place-suggestion service of the `app` backend: the prompt lines that
 * depend on how long the user has lived in Canada, the cleanup of the
 * model's text before it is parsed as JSON, and the result returned when
 * anything fails. The model's answer is an input (`LlmReply`) and JSON
 * parsing is a parameter.
 */
module Suggestions {
  import opened Wrappers
  import opened Text
  import opened Gemini

  /** `profile.get('time_in_canada_months', 0) or 0`; `None` stands for a missing or `None` value. */
  function MonthsInCanada(stored: Option<int>): (months: int)
    ensures stored.None? ==> months == 0
    ensures stored.Some? ==> months == stored.value
  {
    stored.GetOr(0)
  }

  const LANGUAGE_CLASSES_LINE: string :=
    "5. **English/French Classes**: ESL schools, language learning centers (user is new to Canada)"
  const SETTLEMENT_LINE: string :=
    "6. **Settlement Services**: Immigrant settlement agencies, newcomer centers"

  /** The prompt asks for language classes only for users in Canada for less than a year. */
  function LanguageClassesLine(months: int): (line: string)
    ensures line != "" <==> months < 12
    ensures line != "" ==> line == LANGUAGE_CLASSES_LINE
  {
    if months < 12 then LANGUAGE_CLASSES_LINE else ""
  }

  /**
   * The prompt asks for settlement services only for users in Canada for less
   * than six months, who are then always offered language classes too.
   */
  function SettlementLine(months: int): (line: string)
    ensures line != "" <==> months < 6
    ensures line != "" ==> line == SETTLEMENT_LINE && LanguageClassesLine(months) != ""
  {
    if months < 6 then SETTLEMENT_LINE else ""
  }

  const FENCE: string := "```"

  /**
   * The cleanup before `json.loads`: strip; if the text opens with a code
   * fence, keep what lies between the first and the second fence and drop a
   * `json` tag at its start; strip again. The result never starts or ends
   * with whitespace.
   */
  function CleanModelText(text: string): (cleaned: string)
    ensures cleaned != [] ==> !IsPyWhitespace(cleaned[0]) && !IsPyWhitespace(cleaned[|cleaned| - 1])
    ensures !StartsWith(Trim(text, IsPyWhitespace), FENCE) ==> cleaned == Trim(text, IsPyWhitespace)
    ensures var t := Trim(text, IsPyWhitespace);
      StartsWith(t, FENCE) ==>
        exists j | 3 <= j <= |t| ::
          && (j == |t| || OccursAt(t, FENCE, j))
          && (forall k | 3 <= k < j :: !OccursAt(t, FENCE, k))
          && cleaned == Trim(DropJsonTag(t[3..j]), IsPyWhitespace)
  {
    var t := Trim(text, IsPyWhitespace);
    if StartsWith(t, FENCE) then
      FenceFirst(t);
      var body := SplitSecond(t, FENCE);
      assert t[3..3 + |body|] == body;
      Trim(DropJsonTag(body), IsPyWhitespace)
    else
      TrimIdempotent(text, IsPyWhitespace);
      Trim(t, IsPyWhitespace)
  }

  /** Text that opens with a fence has its first fence at position 0. */
  lemma FenceFirst(t: string)
    requires StartsWith(t, FENCE)
    ensures Contains(t, FENCE) && IndexFrom(t, FENCE, 0) == Some(0)
  {
    assert OccursAt(t, FENCE, 0);
  }

  /** `if text.startswith("json"): text = text[4:]`: the language tag of a fence, removed once. */
  function DropJsonTag(s: string): (r: string)
    ensures StartsWith(s, "json") ==> s == "json" + r
    ensures !StartsWith(s, "json") ==> r == s
  {
    if StartsWith(s, "json") then s[4..] else s
  }

  /** Text that neither starts nor ends with whitespace is left as it is by stripping. */
  lemma TrimKeeps(s: string, ws: char -> bool)
    requires s != [] && !ws(s[0]) && !ws(s[|s| - 1])
    ensures Trim(s, ws) == s
  {
    var r := Trim(s, ws);
    var a := |s| - |TrimStart(s, ws)|;
    assert a == 0;
    assert a + |r| == |s|;
  }

  /** A fenced block whose body holds no backtick is cut back to exactly that body. */
  lemma FencedBody(body: string)
    requires '`' !in body
    ensures var s := FENCE + body + FENCE;
      && Trim(s, IsPyWhitespace) == s
      && StartsWith(s, FENCE)
      && SplitSecond(s, FENCE) == body
  {
    var s := FENCE + body + FENCE;
    TrimKeeps(s, IsPyWhitespace);
    FenceSplit(body);
  }

  lemma FenceSplit(body: string)
    requires '`' !in body
    ensures var s := FENCE + body + FENCE;
      && StartsWith(s, FENCE)
      && OccursAt(s, FENCE, 0)
      && SplitSecond(s, FENCE) == body
  {
    var s := FENCE + body + FENCE;
    var n := |body|;
    assert s[..3] == FENCE;
    assert OccursAt(s, FENCE, 0);
    assert IndexFrom(s, FENCE, 0) == Some(0);
    var r := SplitSecond(s, FENCE);
    forall p | 3 <= p < n + 3
      ensures !OccursAt(s, FENCE, p)
    {
      assert s[p] == body[p - 3] && body[p - 3] in body;
      assert s[p..p + 3][0] == s[p] != FENCE[0];
    }
    assert |r| >= n;
    assert s[n + 3..n + 6] == FENCE;
    assert OccursAt(s, FENCE, n + 3);
    assert r == s[3..n + 3];
    assert s[3..n + 3] == body;
  }

  /** A fenced block with a backtick-free body: the body, less a leading `json` tag, stripped. */
  lemma FencedClean(body: string)
    requires '`' !in body
    ensures CleanModelText(FENCE + body + FENCE) == Trim(DropJsonTag(body), IsPyWhitespace)
  {
    FencedBody(body);
  }

  /** A plain fenced block: only the body is kept, stripped. */
  lemma FencedText(body: string)
    requires '`' !in body && !StartsWith(body, "json")
    ensures CleanModelText(FENCE + body + FENCE) == Trim(body, IsPyWhitespace)
  {
    FencedClean(body);
  }

  /** A block fenced as ```json: the tag goes as well, and only the body is kept, stripped. */
  lemma FencedJsonText(body: string)
    requires '`' !in body
    ensures CleanModelText(FENCE + ("json" + body) + FENCE) == Trim(body, IsPyWhitespace)
  {
    TaggedBody(body);
    FencedClean("json" + body);
  }

  /** Putting the `json` tag before a backtick-free body keeps it backtick-free, and the tag comes off again. */
  lemma TaggedBody(body: string)
    requires '`' !in body
    ensures '`' !in "json" + body
    ensures DropJsonTag("json" + body) == body
  {
    var tagged := "json" + body;
    assert tagged[..4] == "json";
    assert tagged[4..] == body;
  }

  /**
   * The service's answer: the parsed document, or, when the model call or
   * parsing raises, an error result with no places (and, for profile
   * suggestions, no tips) and the exception's message.
   */
  datatype Suggestions<D> =
    | Parsed(doc: D)
    | Failed(places: seq<D>, tips: Option<seq<D>>, error: string)

  /** A user profile, as far as the suggestions read it. */
  datatype UserProfile = UserProfile(timeInCanadaMonths: Option<int>)

  /** The text handed to `json.loads`, or the message of the exception raised before. */
  function ModelText(reply: LlmReply): Result<string, string> {
    match reply
    case Reply(text) => Success(CleanModelText(text))
    case Raised(message) => Failure(message)
  }

  /**
   * The two conditional instruction lines of the profile prompt, in order; a
   * line that does not apply is the empty string. Settlement services are
   * only asked for when language classes are asked for too.
   */
  function ProfilePromptLines(profile: UserProfile): (lines: seq<string>)
    ensures |lines| == 2
    ensures var months := MonthsInCanada(profile.timeInCanadaMonths);
      && (lines[0] == LANGUAGE_CLASSES_LINE <==> months < 12)
      && (lines[1] == SETTLEMENT_LINE <==> months < 6)
      && (lines[0] == "" <==> months >= 12)
      && (lines[1] == "" <==> months >= 6)
    ensures lines[1] != "" ==> lines[0] != ""
  {
    var months := MonthsInCanada(profile.timeInCanadaMonths);
    [LanguageClassesLine(months), SettlementLine(months)]
  }

  /**
   * `get_profile_suggestions`: the profile shapes the prompt, and `answer`
   * gives the model's reply to a prompt with the given conditional lines.
   */
  function GetProfileSuggestions<D>(profile: UserProfile, answer: seq<string> -> LlmReply,
                                    parse: string -> Result<D, string>)
    : (r: Suggestions<D>)
    ensures var reply := answer(ProfilePromptLines(profile));
      && (r.Parsed? <==> reply.Reply? && parse(CleanModelText(reply.text)).Success?)
      && (r.Parsed? ==> r.doc == parse(CleanModelText(reply.text)).value)
      && (r.Failed? ==> r.places == [] && r.tips == Some([]))
      && (reply.Raised? ==> r == Failed([], Some([]), reply.message))
      && (reply.Reply? && parse(CleanModelText(reply.text)).Failure? ==>
            r.error == parse(CleanModelText(reply.text)).error)
  {
    match ModelText(answer(ProfilePromptLines(profile)))
    case Failure(message) => Failed([], Some([]), message)
    case Success(text) =>
      match parse(text)
      case Success(doc) => Parsed(doc)
      case Failure(message) => Failed([], Some([]), message)
  }

  /** `search_suggestions`: the same flow; its error result has no `tips` key. */
  function SearchSuggestions<D>(query: string, city: string, reply: LlmReply, parse: string -> Result<D, string>)
    : (r: Suggestions<D>)
    ensures r.Parsed? <==> reply.Reply? && parse(CleanModelText(reply.text)).Success?
    ensures r.Parsed? ==> r.doc == parse(CleanModelText(reply.text)).value
    ensures r.Failed? ==> r.places == [] && r.tips.None?
    ensures reply.Raised? ==> r == Failed([], None, reply.message)
    ensures reply.Reply? && parse(CleanModelText(reply.text)).Failure? ==>
      r.error == parse(CleanModelText(reply.text)).error
  {
    match ModelText(reply)
    case Failure(message) => Failed([], None, message)
    case Success(text) =>
      match parse(text)
      case Success(doc) => Parsed(doc)
      case Failure(message) => Failed([], None, message)
  }
}
