/** run_vision_eval: the two messages sent for one image, and the normalisation that
    guarantees an OK/NG verdict and a details field on whatever the backend replies. */
module VisionEval {
  import opened Text
  import opened Json
  import opened LlmProviders
  import opened RuntimeClient
  import opened ProviderDispatch
  import PromptFactory

  /** The instruction the evaluator writes into the user payload. */
  const EvalInstruction: string := "画像全体が仕様に合致するか検証し、OK/NGと理由をJSONで一貫して回答してください。"

  const InvalidVerdictDetails: string := "モデルから有効な判定が返らなかったためNGとします。"

  /** The evaluator repeats the bundle's instruction word for word. */
  lemma EvalInstructionIsBundleInstruction()
    ensures EvalInstruction == PromptFactory.Instruction
  {
  }

  /** The user payload: the bundle's spec_text, the fixed instruction and the image size. */
  function UserPayload(specText: Value, img: Image): Value {
    Obj(map["spec_text" := specText,
            "instruction" := Str(EvalInstruction),
            "image_size" := Obj(map["width" := Num(img.width as real), "height" := Num(img.height as real)])])
  }

  /** The messages: the bundle's system value as is, then the JSON-encoded user payload
      with the image as a data URI. A bundle without "system", without "user" or with a
      user lacking "spec_text" raises KeyError; a user that is not a dict, TypeError. */
  function EvalMessages(codec: Codec, bundle: Object, img: Image): (r: Result<seq<Object>>)
    ensures "system" !in bundle ==> r == Err(KeyError("system"))
    ensures "system" in bundle && "user" !in bundle ==> r == Err(KeyError("user"))
    ensures "system" in bundle && "user" in bundle && !bundle["user"].Obj? ==> r == Err(TypeError)
    ensures "system" in bundle && "user" in bundle && bundle["user"].Obj? && "spec_text" !in bundle["user"].fields ==>
              r == Err(KeyError("spec_text"))
    ensures r.Ok? <==> "system" in bundle && "user" in bundle && bundle["user"].Obj? && "spec_text" in bundle["user"].fields
    ensures r.Ok? ==>
              && |r.value| == 2
              && r.value[0] == map["role" := Str("system"), "content" := bundle["system"]]
              && r.value[1] == map["role" := Str("user"),
                                   "content" := Obj(map["text" := Str(codec.encode(UserPayload(bundle["user"].fields["spec_text"], img))),
                                                        "image_url" := Str(PilToDataUri(img))])]
  {
    if "system" !in bundle then Err(KeyError("system"))
    else if "user" !in bundle then Err(KeyError("user"))
    else
      var user := bundle["user"];
      if !user.Obj? then Err(TypeError)
      else if "spec_text" !in user.fields then Err(KeyError("spec_text"))
      else
        var payload := UserPayload(user.fields["spec_text"], img);
        Ok([map["role" := Str("system"), "content" := bundle["system"]],
            map["role" := Str("user"),
                "content" := Obj(map["text" := Str(codec.encode(payload)), "image_url" := Str(PilToDataUri(img))])]])
  }

  /** The live client reads these messages back as the system text, the JSON user text,
      the data URI and the PNG inline data. */
  lemma EvalMessagesSplit(codec: Codec, bundle: Object, img: Image)
    requires Lawful(codec)
    requires EvalMessages(codec, bundle, img).Ok?
    ensures SplitAll(codec, EvalMessages(codec, bundle, img).value)
            == Ok(Split(codec.show(bundle["system"]),
                        codec.encode(UserPayload(bundle["user"].fields["spec_text"], img)),
                        Str(PilToDataUri(img)),
                        Some((DefaultMime, img.pngBase64))))
  {
    var ms := EvalMessages(codec, bundle, img).value;
    var a1 := NoSplit.(systemText := codec.show(bundle["system"]));
    assert ms[..1][..0] == [];
    assert SplitAll(codec, ms[..1][..0]) == Ok(NoSplit);
    assert SplitStep(codec, NoSplit, ms[0]) == Ok(a1);
    assert SplitAll(codec, ms[..1]) == Ok(a1);
    assert ms[..|ms| - 1] == ms[..1];
    var text := codec.encode(UserPayload(bundle["user"].fields["spec_text"], img));
    assert codec.show(Str(text)) == text;
    var uri := PilToDataUri(img);
    DataUriOfPng(img);
    assert SplitStep(codec, a1, ms[1]) == Ok(Split(a1.systemText, text, Str(uri), Some((DefaultMime, img.pngBase64))));
  }

  /** str(result.get("verdict", "")).upper() is OK or NG. */
  predicate ValidVerdict(codec: Codec, result: Object) {
    Upper(codec.show(Get(result, "verdict", Str("")))) in {"OK", "NG"}
  }

  /** The normalisation: a valid verdict is kept as written; any other verdict becomes
      "NG", keeping truthy details and explaining otherwise; details is set to "" only
      when absent. */
  function NormalizeResult(codec: Codec, result: Object): (r: Object)
    ensures r.Keys == result.Keys + {"details"} + (if ValidVerdict(codec, result) then {} else {"verdict"})
    ensures ValidVerdict(codec, result) ==> forall k :: k in result ==> r[k] == result[k]
    ensures ValidVerdict(codec, result) && "details" !in result ==> r["details"] == Str("")
    ensures !ValidVerdict(codec, result) ==> r["verdict"] == Str("NG")
    ensures !ValidVerdict(codec, result) ==>
              r["details"] == if Truthy(Get(result, "details", Null)) then result["details"] else Str(InvalidVerdictDetails)
    ensures forall k :: k in result && k != "verdict" && k != "details" ==> r[k] == result[k]
  {
    var fixed :=
      if ValidVerdict(codec, result) then result
      else result["verdict" := Str("NG")]["details" := if Truthy(Get(result, "details", Null)) then result["details"] else Str(InvalidVerdictDetails)];
    if "details" in fixed then fixed else fixed["details" := Str("")]
  }

  /** After normalisation the verdict is always OK or NG, and details is present. */
  lemma NormalizedVerdictIsValid(codec: Codec, result: Object)
    requires Lawful(codec)
    ensures ValidVerdict(codec, NormalizeResult(codec, result))
    ensures "details" in NormalizeResult(codec, result)
  {
    var r := NormalizeResult(codec, result);
    if !ValidVerdict(codec, result) {
      assert codec.show(Str("NG")) == "NG";
      assert Upper("NG") == "NG";
    }
  }

  /** Normalising twice changes nothing more. */
  lemma NormalizeIdempotent(codec: Codec, result: Object)
    requires Lawful(codec)
    ensures NormalizeResult(codec, NormalizeResult(codec, result)) == NormalizeResult(codec, result)
  {
    NormalizedVerdictIsValid(codec, result);
  }

  /** An invalid verdict never becomes OK: the normalisation only ever fails safe. */
  lemma InvalidVerdictNeverOk(codec: Codec, result: Object)
    requires !ValidVerdict(codec, result)
    ensures NormalizeResult(codec, result)["verdict"] != Str("OK")
  {
  }

  /** resp.get("json", {}): the decision, {} when absent; .get on anything but a dict
      raises AttributeError. */
  function ResultOf(resp: Object): (r: Result<Object>)
    ensures "json" !in resp ==> r == Ok(map[])
    ensures "json" in resp ==> (r.Ok? <==> resp["json"].Obj?)
    ensures r.Ok? && "json" in resp ==> r.value == resp["json"].fields
    ensures r.Err? ==> r.fault == AttributeError
  {
    var json := Get(resp, "json", Obj(map[]));
    if json.Obj? then Ok(json.fields) else Err(AttributeError)
  }

  /** run_vision_eval: messages, one chat_vision call, the normalised decision; and the
      requests that call sent. */
  function EvalSpec(backend: Backend, p: LLMProvider, bundle: Object, img: Image, environ: map<string, string>, script: Script, codec: Codec): (res: (Result<Object>, seq<Post>))
    ensures EvalMessages(codec, bundle, img).Err? ==> res == (Err(EvalMessages(codec, bundle, img).fault), [])
    ensures res.0.Ok? ==> "details" in res.0.value
  {
    match EvalMessages(codec, bundle, img)
    case Err(f) => (Err(f), [])
    case Ok(messages) =>
      var (resp, sent) := ChatSpec(backend, p, messages, environ, script, codec);
      match resp
      case Err(f) => (Err(f), sent)
      case Ok(reply) =>
        match ResultOf(reply)
        case Err(f) => (Err(f), sent)
        case Ok(result) => (Ok(NormalizeResult(codec, result)), sent)
  }

  /** A decision run_vision_eval returns is the chat reply's json, normalised: its
      verdict is OK or NG and it has details. */
  lemma EvalVerdictIsValid(backend: Backend, p: LLMProvider, bundle: Object, img: Image, environ: map<string, string>, script: Script, codec: Codec)
    requires Lawful(codec)
    ensures var (r, sent) := EvalSpec(backend, p, bundle, img, environ, script, codec);
            r.Ok? ==>
              && EvalMessages(codec, bundle, img).Ok?
              && var (reply, chatSent) := ChatSpec(backend, p, EvalMessages(codec, bundle, img).value, environ, script, codec);
              && sent == chatSent
              && reply.Ok? && ResultOf(reply.value).Ok?
              && r.value == NormalizeResult(codec, ResultOf(reply.value).value)
              && ValidVerdict(codec, r.value)
              && "details" in r.value
  {
    var (r, sent) := EvalSpec(backend, p, bundle, img, environ, script, codec);
    if r.Ok? {
      var (reply, _) := ChatSpec(backend, p, EvalMessages(codec, bundle, img).value, environ, script, codec);
      NormalizedVerdictIsValid(codec, ResultOf(reply.value).value);
    }
  }

  /** run_vision_eval, updating the decision dict in place. */
  method RunVisionEval(backend: Backend, p: LLMProvider, bundle: Object, img: Image, environ: map<string, string>, script: Script, codec: Codec)
    returns (r: Result<Object>, sent: seq<Post>)
    ensures (r, sent) == EvalSpec(backend, p, bundle, img, environ, script, codec)
  {
    var messages := EvalMessages(codec, bundle, img);
    if messages.Err? {
      return Err(messages.fault), [];
    }
    var resp;
    resp, sent := ChatVision(backend, p, messages.value, environ, script, codec);
    if resp.Err? {
      return Err(resp.fault), sent;
    }
    var json := Get(resp.value, "json", Obj(map[]));
    if !json.Obj? {
      return Err(AttributeError), sent;
    }
    var result := json.fields;
    var verdict := Upper(codec.show(Get(result, "verdict", Str(""))));
    if verdict != "OK" && verdict != "NG" {
      result := result["verdict" := Str("NG")];
      var details := Get(result, "details", Null);
      result := result["details" := if Truthy(details) then details else Str(InvalidVerdictDetails)];
    }
    if "details" !in result {
      result := result["details" := Str("")];
    }
    r := Ok(result);
  }

  /** With the demo backend a well-formed bundle is judged OK by the OpenAI stub and NG
      by the Gemini one, with no request sent. */
  lemma DemoEvaluation(p: LLMProvider, bundle: Object, img: Image, environ: map<string, string>, script: Script, codec: Codec)
    requires Lawful(codec)
    requires EvalMessages(codec, bundle, img).Ok?
    requires SelectProvider(p.providerName).Ok?
    ensures var verdict := if SelectProvider(p.providerName).value == OpenAI then "OK" else "NG";
            EvalSpec(Demo, p, bundle, img, environ, script, codec)
            == (Ok(map["verdict" := Str(verdict), "details" := Str("demo response")]), [])
  {
    var verdict := if SelectProvider(p.providerName).value == OpenAI then "OK" else "NG";
    var result := map["verdict" := Str(verdict), "details" := Str("demo response")];
    assert codec.show(Str(verdict)) == verdict;
    assert Upper(verdict) == verdict;
    assert ValidVerdict(codec, result);
  }

  /** A reply without "json" is a missing verdict: NG with the fixed explanation. */
  lemma NoJsonIsNg(codec: Codec, reply: Object)
    requires Lawful(codec)
    requires "json" !in reply
    ensures ResultOf(reply).Ok?
    ensures NormalizeResult(codec, ResultOf(reply).value) == map["verdict" := Str("NG"), "details" := Str(InvalidVerdictDetails)]
  {
    assert Upper("") == "";
    assert !ValidVerdict(codec, map[]);
  }

  /** An ERROR decision from the live client is turned into NG; its details, when
      non-empty, and its other keys survive. */
  lemma ErrorDecisionBecomesNg(codec: Codec, details: string)
    requires Lawful(codec)
    ensures var r := NormalizeResult(codec, ErrorDecision(details).fields);
            && r["verdict"] == Str("NG")
            && r["details"] == Str(if details != [] then details else InvalidVerdictDetails)
            && r["checks"] == Arr([])
  {
    var e := ErrorDecision(details).fields;
    assert codec.show(Str("ERROR")) == "ERROR";
    assert Upper("ERROR")[0] == 'E';
    assert !ValidVerdict(codec, e);
  }

  /** A built bundle always makes well-formed messages. */
  lemma BuiltBundleEvaluates(codec: Codec, specText: string, img: Image)
    ensures EvalMessages(codec, PromptFactory.BuildPromptBundle(specText), img).Ok?
  {
  }
}
