/** LLMProvider.chat_vision: the backend chosen from provider_name, answered either by
    the authoring-time demo replies or by the runtime clients the generated artifact
    installs in their place. */
module ProviderDispatch {
  import opened Json
  import opened LlmProviders
  import opened RuntimeClient

  /** Which _openai_chat/_gemini_chat pair is installed: the demo stubs of the authoring
      module, or the real clients of the generated runtime app. */
  datatype Backend = Demo | Live

  /** What chat_vision does: an unsupported name raises before any request. */
  function ChatSpec(backend: Backend, p: LLMProvider, messages: seq<Object>, environ: map<string, string>, script: Script, codec: Codec): (res: (Result<Object>, seq<Post>))
    ensures SelectProvider(p.providerName).Err? ==> res == (Err(ValueError(UnsupportedProvider)), [])
    ensures backend == Demo ==> res.1 == []
    ensures |res.1| <= 2
  {
    match SelectProvider(p.providerName)
    case Err(f) => (Err(f), [])
    case Ok(OpenAI) =>
      if backend == Demo then (Ok(DemoOpenAIChat(messages)), []) else OpenAIChatSpec(p, messages, environ, script, codec)
    case Ok(Gemini) =>
      if backend == Demo then (Ok(DemoGeminiChat(messages)), []) else GeminiChatSpec(p, messages, environ, script, codec)
  }

  /** chat_vision. */
  method ChatVision(backend: Backend, p: LLMProvider, messages: seq<Object>, environ: map<string, string>, script: Script, codec: Codec)
    returns (r: Result<Object>, sent: seq<Post>)
    ensures (r, sent) == ChatSpec(backend, p, messages, environ, script, codec)
  {
    var kind := SelectProvider(p.providerName);
    if kind.Err? {
      return Err(kind.fault), [];
    }
    if kind.value == OpenAI {
      if backend == Demo {
        return Ok(DemoOpenAIChat(messages)), [];
      }
      r, sent := OpenAIChat(p, messages, environ, script, codec);
    } else {
      if backend == Demo {
        return Ok(DemoGeminiChat(messages)), [];
      }
      r, sent := GeminiChat(p, messages, environ, script, codec);
    }
  }

  /** The demo backend answers OK for OpenAI and NG for Gemini, whatever was asked, and
      sends nothing. */
  lemma DemoRepliesAreFixed(p: LLMProvider, messages: seq<Object>, environ: map<string, string>, script: Script, codec: Codec)
    requires SelectProvider(p.providerName).Ok?
    ensures var res := ChatSpec(Demo, p, messages, environ, script, codec);
            res.0.Ok? && res.1 == [] && res.0.value.Keys == {"output_text", "json"}
            && res.0.value["json"] == Verdict(if SelectProvider(p.providerName).value == OpenAI then "OK" else "NG", "demo response")
  {
  }

  /** A live request always goes to the backend the name selects: the OpenAI endpoint
      with a bearer token, or a Gemini URL with no Authorization header. */
  lemma LiveRequestsGoToSelectedBackend(p: LLMProvider, messages: seq<Object>, environ: map<string, string>, script: Script, codec: Codec)
    requires SelectProvider(p.providerName).Ok?
    ensures var res := ChatSpec(Live, p, messages, environ, script, codec);
            forall i :: 0 <= i < |res.1| ==>
              (SelectProvider(p.providerName).value == OpenAI <==> res.1[i].authorization.Some?)
  {
    var res := ChatSpec(Live, p, messages, environ, script, codec);
    if SelectProvider(p.providerName).value == OpenAI {
      OpenAIRequestsAuthorized(p, messages, environ, script, codec);
    } else {
      GeminiRequestsUnauthorized(p, messages, environ, script, codec);
    }
  }
}
