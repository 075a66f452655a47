/**
 * `GeminiService` of the backend: a lazily created language model, the
 * conversation summary, and the recognition greeting with its fixed
 * fallback text. What the model answers is an input (`LlmReply`); prompt
 * wording is not modelled.
 */
module Gemini {
  import opened Wrappers
  import opened Text

  /** The model handle `_get_model` creates. */
  datatype GenerativeModel = GenerativeModel(name: string)

  const MODEL_NAME: string := "gemini-pro"

  /** What `model.generate_content(prompt).text` gives: the text, or an exception's message. */
  datatype LlmReply = Reply(text: string) | Raised(message: string)

  /** Python truthiness of an optional string: present and non-empty. */
  predicate IsTruthy(s: Option<string>) {
    s.Some? && s.value != ""
  }

  function Introduction(name: string, relationship: string): string {
    "This is " + name + ", your " + relationship + "."
  }

  const SUMMARY_LEAD: string := " Last time you talked about: "

  /**
   * The greeting used when there is no model or the model call raises: the
   * introduction, followed by the last summary only when that summary is
   * truthy. The summary can be read back after the introduction.
   */
  function FallbackGreeting(name: string, relationship: string, lastSummary: Option<string>): (greeting: string)
    ensures StartsWith(greeting, Introduction(name, relationship))
    ensures !IsTruthy(lastSummary) <==> greeting == Introduction(name, relationship)
    ensures IsTruthy(lastSummary) ==>
      greeting[|Introduction(name, relationship)|..] == SUMMARY_LEAD + lastSummary.value
  {
    var greeting := Introduction(name, relationship);
    if IsTruthy(lastSummary) then greeting + SUMMARY_LEAD + lastSummary.value else greeting
  }

  class GeminiService {
    /** `settings.GEMINI_API_KEY`, fixed for the life of the process. */
    const apiKey: string
    var model: Option<GenerativeModel>
    /** How many models have been created so far. */
    ghost var creations: nat

    ghost predicate Valid()
      reads this
    {
      && creations <= 1
      && (model.Some? <==> creations == 1)
      && (model.Some? ==> apiKey != "" && model.value.name == MODEL_NAME)
    }

    constructor(apiKey: string)
      ensures Valid() && this.apiKey == apiKey && model.None? && creations == 0
    {
      this.apiKey := apiKey;
      model := None;
      creations := 0;
    }

    /**
     * `_get_model`: creates the model on first use when an API key is
     * configured, and afterwards always returns that same model. So at most
     * one model is ever created, and none without a key.
     */
    method GetModel() returns (m: Option<GenerativeModel>)
      requires Valid()
      modifies this
      ensures Valid() && m == model
      ensures old(model).Some? ==> model == old(model) && creations == old(creations)
      ensures old(model).None? ==> (model.Some? <==> apiKey != "")
    {
      if model.None? && apiKey != "" {
        model := Some(GenerativeModel(MODEL_NAME));
        creations := creations + 1;
      }
      m := model;
    }

    /**
     * `generate_conversation_summary`: the model's text, or `None` when no
     * model is available or the call raises.
     */
    method GenerateConversationSummary(conversationText: string, familyMemberName: string,
                                       relationship: string, reply: LlmReply)
      returns (summary: Option<string>)
      requires Valid()
      modifies this
      ensures Valid()
      ensures old(model).Some? ==> model == old(model)
      ensures old(model).None? ==> (model.Some? <==> apiKey != "")
      ensures summary.Some? <==> model.Some? && reply.Reply?
      ensures summary.Some? ==> summary.value == reply.text
    {
      var m := GetModel();
      if m.None? {
        return None;
      }
      match reply
      case Reply(text) => summary := Some(text);
      case Raised(_) => summary := None;
    }

    /**
     * `generate_recognition_greeting`: the model's text when there is a model
     * and it answers; the fallback greeting otherwise.
     */
    method GenerateRecognitionGreeting(familyMemberName: string, relationship: string,
                                       lastConversationSummary: Option<string>, reply: LlmReply)
      returns (greeting: string)
      requires Valid()
      modifies this
      ensures Valid()
      ensures old(model).Some? ==> model == old(model)
      ensures old(model).None? ==> (model.Some? <==> apiKey != "")
      ensures model.Some? && reply.Reply? ==> greeting == reply.text
      ensures model.None? || reply.Raised? ==>
        greeting == FallbackGreeting(familyMemberName, relationship, lastConversationSummary)
    {
      var m := GetModel();
      if m.None? {
        return FallbackGreeting(familyMemberName, relationship, lastConversationSummary);
      }
      match reply
      case Reply(text) => greeting := text;
      case Raised(_) => greeting := FallbackGreeting(familyMemberName, relationship, lastConversationSummary);
    }
  }
}
