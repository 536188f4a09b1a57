/** The provider record, the case-insensitive choice of backend, and the demo replies
    the authoring-time module gives. */
module LlmProviders {
  import opened Json
  import opened Text

  /** The LLMProvider dataclass. Temperature is optional: only its equality with None or
      1 is ever tested. */
  datatype LLMProvider = LLMProvider(providerName: string, model: string, temperature: Option<real>, maxTokens: int)

  /** LLMProvider() with every field defaulted. */
  const DefaultProvider: LLMProvider := LLMProvider("OpenAI", "", Some(0.2), 1024)

  /** The two backends a provider name can select. */
  datatype ProviderKind = OpenAI | Gemini

  const UnsupportedProvider: string := "Unsupported provider"

  /** chat_vision's routing on provider_name.lower(). */
  function SelectProvider(name: string): (r: Result<ProviderKind>)
    ensures r == Ok(OpenAI) <==> Lower(name) == "openai"
    ensures r == Ok(Gemini) <==> Lower(name) == "gemini"
    ensures r.Err? <==> Lower(name) != "openai" && Lower(name) != "gemini"
    ensures r.Err? ==> r.fault == ValueError(UnsupportedProvider)
  {
    if Lower(name) == "openai" then Ok(OpenAI)
    else if Lower(name) == "gemini" then Ok(Gemini)
    else Err(ValueError(UnsupportedProvider))
  }

  /** An image as the evaluator needs it: its size, and the base64 text of its PNG
      encoding (PIL and base64 themselves are not modelled). */
  datatype Image = Image(width: nat, height: nat, pngBase64: string)

  /** pil_to_datauri. */
  function PilToDataUri(img: Image): (uri: string)
    ensures StartsWith(uri, "data:")
  {
    "data:image/png;base64," + img.pngBase64
  }

  /** The reply dict {"output_text": text, "json": decision} every backend returns. */
  function ChatResult(text: string, decision: Value): (resp: Object)
    ensures resp.Keys == {"output_text", "json"}
    ensures resp["output_text"] == Str(text) && resp["json"] == decision
  {
    map["output_text" := Str(text), "json" := decision]
  }

  /** The decision dict {"verdict": verdict, "details": details}. */
  function Verdict(verdict: string, details: string): Value {
    Obj(map["verdict" := Str(verdict), "details" := Str(details)])
  }

  /** The authoring-time _openai_chat: a fixed OK, whatever the messages. */
  function DemoOpenAIChat(messages: seq<Object>): (resp: Object)
  {
    ChatResult("DEMO(OpenAI): OK", Verdict("OK", "demo response"))
  }

  /** The authoring-time _gemini_chat: a fixed NG, whatever the messages. */
  function DemoGeminiChat(messages: seq<Object>): (resp: Object)
  {
    ChatResult("DEMO(Gemini): NG", Verdict("NG", "demo response"))
  }

  /** The defaults pick the OpenAI backend, and the default temperature is not 1. */
  lemma DefaultsSelectOpenAI()
    ensures SelectProvider(DefaultProvider.providerName) == Ok(OpenAI)
    ensures DefaultProvider.providerName == "OpenAI" && DefaultProvider.temperature == Some(0.2)
    ensures DefaultProvider.temperature.value != 1.0
    ensures DefaultProvider.model == "" && DefaultProvider.maxTokens == 1024
  {
    assert Lower("OpenAI") == "openai";
  }

  /** Any spelling of the two names in upper or lower case selects the same backend. */
  lemma SelectIgnoresCase(a: string, b: string)
    requires Lower(a) == Lower(b)
    ensures SelectProvider(a) == SelectProvider(b)
  {
  }
}
