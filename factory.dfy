/** Selection of the transcription provider by its configured name. */
module ProviderFactory {
  import opened Wrappers

  datatype Provider = WhisperProvider | ScribeProvider

  const WhisperName: string := "whisper"
  const ScribeName: string := "elevenlabs_scribe"

  /** The provider name configured for the application. */
  const ConfiguredProvider: string := ScribeName

  /** The name under which a provider is configured. */
  function ProviderName(p: Provider): string
  {
    match p
    case WhisperProvider => WhisperName
    case ScribeProvider => ScribeName
  }

  /**
   * `get_audio_to_text_provider`: the provider for a known name, and otherwise the
   * `ValueError` message naming the unknown provider.
   */
  function GetProvider(name: string): (r: Result<Provider, string>)
    ensures r.Success? <==> name == WhisperName || name == ScribeName
    ensures r.Success? ==> ProviderName(r.value) == name
    ensures r.Failure? ==> r.error == "Unknown AUDIO_TO_TEXT_PROVIDER: " + name
  {
    if name == WhisperName then Success(WhisperProvider)
    else if name == ScribeName then Success(ScribeProvider)
    else Failure("Unknown AUDIO_TO_TEXT_PROVIDER: " + name)
  }

  /** Each provider is selected by its own name. */
  lemma {:induction false} ProviderNameRoundTrip(p: Provider)
    ensures GetProvider(ProviderName(p)) == Success(p)
  {
    match p
    case WhisperProvider =>
    case ScribeProvider =>
  }

  /** The configuration as shipped selects the Scribe provider. */
  lemma ConfiguredProviderIsScribe()
    ensures GetProvider(ConfiguredProvider) == Success(ScribeProvider)
  {
  }
}
