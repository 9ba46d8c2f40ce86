/**
 * The OpenAI Whisper provider's request arguments: the language and prompt fall
 * back to the configured defaults when they are missing or empty.
 */
module Whisper {
  import opened Wrappers

  const DefaultModel: string := "whisper-1"
  const DefaultLanguage: string := "en"
  const DefaultResponseFormat: string := "text"

  const EnglishPrompt: string :=
    "This is an audio recording in English with two interlocutors (Mentor and mentee). Please transcribe it clearly and concisely. Identify both actors clarifying who said what and put time stamp grouped by minutes."
  const SpanishPrompt: string :=
    "Se trata de una grabación de audio en español con dos interlocutores (entrevistador y entrevistado). Por favor, transcríbala de forma clara y concisa. Identifica el entrevistador y el entrevistado y pon marca de tiempo agrupando por minutos."

  /** The configured default prompt per language code. */
  const DefaultPrompts: map<string, string> := map["en" := EnglishPrompt, "es" := SpanishPrompt]

  /** The arguments of one transcription request (the temperature is not modelled). */
  datatype Arguments = Arguments(model: string, language: string, prompt: string, responseFormat: string)

  /** `language or DEFAULT_LANGUAGE`. */
  function EffectiveLanguage(language: Option<string>): string
  {
    if Given(language) then language.value else DefaultLanguage
  }

  /** `prompt or DEFAULT_PROMPT.get(language or DEFAULT_LANGUAGE, "")`. */
  function EffectivePrompt(language: Option<string>, prompt: Option<string>): string
  {
    if Given(prompt) then prompt.value
    else if EffectiveLanguage(language) in DefaultPrompts then DefaultPrompts[EffectiveLanguage(language)]
    else ""
  }

  /**
   * The arguments sent for a call: a given non-empty language or prompt is sent
   * as it is; otherwise the language is English and the prompt is the default for
   * the language sent, or empty for a language without one.
   */
  function RequestArguments(language: Option<string>, prompt: Option<string>): (r: Arguments)
    ensures r.model == DefaultModel && r.responseFormat == DefaultResponseFormat
    ensures r.language != ""
    ensures Given(language) ==> r.language == language.value
    ensures !Given(language) ==> r.language == DefaultLanguage
    ensures Given(prompt) ==> r.prompt == prompt.value
    ensures !Given(prompt) && r.language == "es" ==> r.prompt == SpanishPrompt
    ensures !Given(prompt) && r.language == "en" ==> r.prompt == EnglishPrompt
    ensures !Given(prompt) && r.language != "en" && r.language != "es" ==> r.prompt == ""
  {
    Arguments(DefaultModel, EffectiveLanguage(language), EffectivePrompt(language, prompt), DefaultResponseFormat)
  }

  /** A call without language and prompt sends English with the English prompt. */
  lemma {:induction false} DefaultsAreEnglish()
    ensures RequestArguments(None, None) == Arguments(DefaultModel, "en", EnglishPrompt, DefaultResponseFormat)
    ensures RequestArguments(Some(""), Some("")) == RequestArguments(None, None)
  {
  }

  /**
   * Defaulting is idempotent: sending the resolved language and a non-empty
   * resolved prompt explicitly gives the same arguments.
   */
  lemma {:induction false} ResolvedArgumentsAreFixed(language: Option<string>, prompt: Option<string>)
    requires RequestArguments(language, prompt).prompt != ""
    ensures var r := RequestArguments(language, prompt);
            RequestArguments(Some(r.language), Some(r.prompt)) == r
  {
  }
}
