/** The vision client the generator injects into the runtime artifact: message
    splitting, JSON recovery, error-text extraction, the two provider request builders
    and their error-recovery protocol over a scripted transport. */
module RuntimeClient {
  import opened Text
  import opened Json
  import opened Host
  import opened LlmProviders

  const TruncationMessage: string := "出力が途中で打ち切られました。max_output_tokens を増やして再実行してください。"
  const MissingOpenAIKey: string := "OPENAI_API_KEYが設定されていません。"
  const MissingGeminiKey: string := "GEMINI_API_KEYが設定されていません。"
  const NoChoicesMessage: string := "OpenAIレスポンスにchoicesが含まれていません。"
  const UnpackMessage: string := "not enough values to unpack (expected 2, got 1)"
  const EmptyResponse: string := "empty response"
  const DefaultMime: string := "image/png"
  const DefaultOpenAIModel: string := "gpt-4o-mini"
  const DefaultGeminiModel: string := "gemini-1.5-flash"
  const OpenAIUrl: string := "https://api.openai.com/v1/chat/completions"

  function GeminiUrl(model: string, key: string): string {
    "https://generativelanguage.googleapis.com/v1beta/models/" + model + ":generateContent?key=" + key
  }

  // ---------------------------------------------------------------------------
  // _runtime_split_messages

  /** The four accumulators: system text, user text, the last user image_url value
      (None when absent) and the (mime, base64) pair of the last data URI seen. */
  datatype Split = Split(systemText: string, userText: string, imageUri: Value, inlineData: Option<(string, string)>)

  const NoSplit: Split := Split("", "", Null, None)

  /** Splitting a data URI at its first comma; the mime type is what stands between
      "data:" and the first ';' of the header, "image/png" when that is empty or the
      header has no ';'. A URI without a comma fails the tuple unpacking. */
  function DataUriParts(uri: string): (r: Result<(string, string)>)
    requires StartsWith(uri, "data:")
    ensures r.Err? <==> ',' !in uri
    ensures r.Err? ==> r.fault == ValueError(UnpackMessage)
    ensures r.Ok? ==> r.value.0 != [] && ',' !in r.value.0
    ensures r.Ok? ==> uri == uri[..Find(uri, ',')] + "," + r.value.1
  {
    var c := Find(uri, ',');
    if c == |uri| then Err(ValueError(UnpackMessage))
    else
      assert uri[..5] == "data:";
      assert c >= 5;
      var header := uri[..c];
      var mime :=
        if ';' in header then
          var meta := header[5..];
          var first := meta[..Find(meta, ';')];
          if first == [] then DefaultMime else first
        else DefaultMime;
      assert uri == header + uri[c..];
      assert uri[c..] == "," + uri[c + 1..];
      Ok((mime, uri[c + 1..]))
  }

  /** A data URI whose header is "data:<mime>;<parameters>" comes apart as the mime type
      and the data after the first comma. */
  lemma DataUriWithParameters(mime: string, params: string, data: string)
    requires mime != [] && ',' !in mime && ';' !in mime && ',' !in params
    ensures DataUriParts("data:" + mime + ";" + params + "," + data) == Ok((mime, data))
  {
    var header := "data:" + mime + ";" + params;
    var uri := header + "," + data;
    assert uri == header + ("," + data);
    assert ',' !in header by {
      assert header == "data:" + (mime + (";" + params));
    }
    FindAfterPrefix(header, "," + data, ',');
    assert uri[..|header|] == header;
    assert uri[|header| + 1..] == data;
    var meta := header[5..];
    assert meta == mime + (";" + params);
    FindAfterPrefix(mime, ";" + params, ';');
    assert meta[..|mime|] == mime;
    assert header[5 + |mime|] == ';';
  }

  /** A header "data:;<parameters>" names no type before its ';', so the mime type
      falls back to image/png. */
  lemma DataUriEmptyMime(params: string, data: string)
    requires ',' !in params
    ensures DataUriParts("data:;" + params + "," + data) == Ok((DefaultMime, data))
  {
    var header := "data:;" + params;
    var uri := header + "," + data;
    assert uri == header + ("," + data);
    assert ',' !in header by {
      assert header == "data:;" + params;
    }
    FindAfterPrefix(header, "," + data, ',');
    assert uri[..|header|] == header;
    assert uri[|header| + 1..] == data;
    var meta := header[5..];
    assert meta[0] == ';';
    assert ';' in header by { assert header[5] == ';'; }
  }

  /** A PNG data URI from pil_to_datauri comes back apart as ("image/png", its base64). */
  lemma DataUriOfPng(img: Image)
    ensures DataUriParts(PilToDataUri(img)) == Ok((DefaultMime, img.pngBase64))
  {
    assert PilToDataUri(img) == "data:" + DefaultMime + ";" + "base64" + "," + img.pngBase64;
    DataUriWithParameters(DefaultMime, "base64", img.pngBase64);
  }

  /** A data URI whose header names a type but has no ';' is still read as image/png. */
  lemma DataUriWithoutParameters(mime: string, data: string)
    requires ',' !in mime && ';' !in mime
    ensures DataUriParts("data:" + mime + "," + data) == Ok((DefaultMime, data))
  {
    var uri := "data:" + mime + "," + data;
    var header := "data:" + mime;
    assert uri == header + ("," + data);
    FindAfterPrefix(header, "," + data, ',');
    assert uri[..Find(uri, ',')] == header;
    assert uri[|header| + 1..] == data;
  }

  /** One iteration of the loop over the messages. */
  function SplitStep(codec: Codec, a: Split, m: Object): Result<Split> {
    var role := Get(m, "role", Null);
    if role == Str("system") then
      Ok(a.(systemText := codec.show(Get(m, "content", Str("")))))
    else if role == Str("user") then
      var content := Get(m, "content", Obj(map[]));
      if content.Obj? then
        var text := codec.show(Get(content.fields, "text", Str("")));
        var uri := Get(content.fields, "image_url", Null);
        if uri.Str? && StartsWith(uri.s, "data:") then
          match DataUriParts(uri.s)
          case Err(f) => Err(f)
          case Ok(parts) => Ok(Split(a.systemText, text, uri, Some(parts)))
        else Ok(Split(a.systemText, text, uri, a.inlineData))
      else Ok(a.(userText := codec.show(content)))
    else Ok(a)
  }

  /** The loop over the messages, message by message from the first. */
  function SplitAll(codec: Codec, ms: seq<Object>): Result<Split>
    decreases |ms|
  {
    if ms == [] then Ok(NoSplit)
    else
      match SplitAll(codec, ms[..|ms| - 1])
      case Err(f) => Err(f)
      case Ok(a) => SplitStep(codec, a, ms[|ms| - 1])
  }

  /** Once a message has raised, the rest of the loop never runs. */
  lemma {:induction false} SplitAllStopsAtFault(codec: Codec, ms: seq<Object>, rest: seq<Object>, f: Fault)
    requires SplitAll(codec, ms) == Err(f)
    ensures SplitAll(codec, ms + rest) == Err(f)
    decreases |rest|
  {
    if rest == [] {
      assert ms + rest == ms;
    } else {
      var init := rest[..|rest| - 1];
      assert (ms + rest)[..|ms + rest| - 1] == ms + init;
      SplitAllStopsAtFault(codec, ms, init, f);
    }
  }

  /** _runtime_split_messages: a loop reassigning the four accumulators. */
  method SplitMessages(codec: Codec, messages: seq<Object>) returns (r: Result<Split>)
    ensures r == SplitAll(codec, messages)
  {
    var systemText, userText, imageUri, inlineData := "", "", Null, None;
    var i := 0;
    while i < |messages|
      invariant 0 <= i <= |messages|
      invariant SplitAll(codec, messages[..i]) == Ok(Split(systemText, userText, imageUri, inlineData))
    {
      assert messages[..i + 1][..i] == messages[..i];
      var message := messages[i];
      var role := Get(message, "role", Null);
      if role == Str("system") {
        systemText := codec.show(Get(message, "content", Str("")));
      } else if role == Str("user") {
        var content := Get(message, "content", Obj(map[]));
        if content.Obj? {
          userText := codec.show(Get(content.fields, "text", Str("")));
          imageUri := Get(content.fields, "image_url", Null);
          if imageUri.Str? && StartsWith(imageUri.s, "data:") {
            var parts := DataUriParts(imageUri.s);
            if parts.Err? {
              SplitAllStopsAtFault(codec, messages[..i + 1], messages[i + 1..], parts.fault);
              assert messages[..i + 1] + messages[i + 1..] == messages;
              return Err(parts.fault);
            }
            inlineData := Some(parts.value);
          }
        } else {
          userText := codec.show(content);
        }
      }
      i := i + 1;
    }
    assert messages[..i] == messages;
    r := Ok(Split(systemText, userText, imageUri, inlineData));
  }

  // ---------------------------------------------------------------------------
  // _runtime_parse_json_response

  /** The decision the client makes up when the reply cannot be used. */
  function NgDecision(details: string): Value {
    Obj(map["verdict" := Str("NG"), "details" := Str(details), "checks" := Arr([])])
  }

  /** The match of the regular expression \{.*\} with DOTALL: from the first '{' to the
      last '}' when that '}' comes after it. */
  function BraceSpan(text: string): (r: Option<string>)
    ensures r.Some? ==> |r.value| >= 2 && r.value[0] == '{' && r.value[|r.value| - 1] == '}'
    ensures r.Some? <==> Find(text, '{') < RFind(text, '}')
    ensures r.Some? ==> r.value == text[Find(text, '{')..RFind(text, '}') + 1]
  {
    var i := Find(text, '{');
    var j := RFind(text, '}');
    if i < j then Some(text[i..j + 1]) else None
  }

  /** The two-stage recovery: the whole text, then the brace span, then NG. It never
      fails: every text yields a value. */
  function ParseJsonResponse(codec: Codec, text: string, fallback: Option<string>): (r: Value)
    ensures text == [] ==> r == NgDecision(OrElse(fallback, EmptyResponse))
    ensures text != [] && codec.decode(text).Some? ==> r == codec.decode(text).value
    ensures text != [] && codec.decode(text).None? && BraceSpan(text).Some? && codec.decode(BraceSpan(text).value).Some? ==>
              r == codec.decode(BraceSpan(text).value).value
    ensures text != [] && codec.decode(text).None? && (BraceSpan(text).None? || codec.decode(BraceSpan(text).value).None?) ==>
              r == NgDecision(OrElse(fallback, text))
  {
    if text == [] then NgDecision(OrElse(fallback, EmptyResponse))
    else
      match codec.decode(text)
      case Some(v) => v
      case None =>
        match BraceSpan(text)
        case Some(span) =>
          (match codec.decode(span)
           case Some(v) => v
           case None => NgDecision(OrElse(fallback, text)))
        case None => NgDecision(OrElse(fallback, text))
  }

  /** An object wrapped in prose without braces is recovered whole. */
  lemma RecoversWrappedObject(codec: Codec, pre: string, obj: string, post: string, fallback: Option<string>, v: Value)
    requires '{' !in pre && '}' !in post
    requires obj != [] && obj[0] == '{' && obj[|obj| - 1] == '}'
    requires codec.decode(pre + obj + post).None?
    requires codec.decode(obj) == Some(v)
    ensures ParseJsonResponse(codec, pre + obj + post, fallback) == v
  {
    var text := pre + obj + post;
    FindAfterPrefix(pre, obj + post, '{');
    assert text == pre + (obj + post);
    var j := |pre| + |obj| - 1;
    assert text[j] == '}';
    assert RFind(text, '}') == j;
    assert text[|pre|..j + 1] == obj;
    assert BraceSpan(text) == Some(obj);
  }

  // ---------------------------------------------------------------------------
  // _extract_error_details and the transport

  /** An HTTP reply: status code and body text. */
  datatype HttpResponse = HttpResponse(status: nat, body: string)

  /** What one requests.post gives: a reply, or an exception before any reply. */
  datatype HttpOutcome = Delivered(response: HttpResponse) | Unreachable

  /** The outcomes the server gives to the first POST and to a second one, should the
      client send it. The client never sends a third. */
  datatype Script = Script(first: HttpOutcome, retry: HttpOutcome)

  /** One request: URL, Authorization header (OpenAI only) and JSON body. */
  datatype Post = Post(url: string, authorization: Option<string>, body: Object)

  /** raise_for_status raises for 4xx and 5xx. */
  predicate IsHttpError(status: nat) {
    400 <= status < 600
  }

  /** payload["error"]["message"] when "error" is a dict and its message is truthy. */
  function EnvelopeMessage(payload: Object): (m: Option<Value>)
    ensures m.Some? <==> "error" in payload && payload["error"].Obj? && "message" in payload["error"].fields
                          && Truthy(payload["error"].fields["message"])
    ensures m.Some? ==> m.value == payload["error"].fields["message"]
  {
    var err := Get(payload, "error", Null);
    if err.Obj? && "message" in err.fields && Truthy(err.fields["message"]) then Some(err.fields["message"]) else None
  }

  /** _extract_error_details: error.message from a JSON envelope, else str(payload) of a
      JSON object, else the body text, else "HTTP <status>". */
  function ExtractErrorDetails(codec: Codec, resp: HttpResponse): (d: string)
    ensures (codec.decode(resp.body).None? || !codec.decode(resp.body).value.Obj?) ==>
              d == if resp.body != [] then resp.body else "HTTP " + NatToString(resp.status)
    ensures codec.decode(resp.body).Some? && codec.decode(resp.body).value.Obj? ==>
              var payload := codec.decode(resp.body).value.fields;
              && (EnvelopeMessage(payload).Some? && EnvelopeMessage(payload).value.Str? ==> d == EnvelopeMessage(payload).value.s)
              && (EnvelopeMessage(payload).Some? && !EnvelopeMessage(payload).value.Str? ==> d == codec.show(EnvelopeMessage(payload).value))
              && (EnvelopeMessage(payload).None? ==> d == codec.show(Obj(payload)))
    ensures d == []  ==> codec.decode(resp.body).Some?
  {
    match codec.decode(resp.body)
    case Some(Obj(payload)) =>
      (match EnvelopeMessage(payload)
       case Some(m) => if m.Str? then m.s else codec.show(m)
       case None => codec.show(Obj(payload)))
    case _ => if resp.body != [] then resp.body else "HTTP " + NatToString(resp.status)
  }

  /** A standard error envelope {"error": {"message": m}} yields m. */
  lemma ErrorMessageFromEnvelope(codec: Codec, status: nat, m: string)
    requires Lawful(codec) && m != []
    ensures ExtractErrorDetails(codec, HttpResponse(status, codec.encode(Obj(map["error" := Obj(map["message" := Str(m)])])))) == m
  {
    var inner := map["message" := Str(m)];
    var v := Obj(map["error" := Obj(inner)]);
    assert codec.decode(codec.encode(v)) == Some(v);
  }

  /** The ERROR decision of a rejected request. */
  function ErrorDecision(details: string): Value {
    Obj(map["verdict" := Str("ERROR"), "details" := Str(details), "checks" := Arr([])])
  }

  /** The ERROR decision of a truncated request: a fixed hint, and the raw error as note. */
  function TruncationDecision(details: string): Value {
    Obj(map["verdict" := Str("ERROR"), "details" := Str(TruncationMessage), "checks" := Arr([]), "note" := Str(details)])
  }

  /** The provider's own words for "the output ran out of length". */
  predicate Truncated(kind: ProviderKind, d: string) {
    match kind
    case OpenAI => Contains(d, "maximum context length") || Contains(d, "maximum output length") || Contains(d, "finish_reason")
    case Gemini => Contains(d, "maximum") && Contains(d, "tokens")
  }

  /** The words for "temperature must stay at its default". */
  predicate TemperatureRejected(d: string) {
    Contains(d, "temperature") && Contains(d, "default (1)")
  }

  // ---------------------------------------------------------------------------
  // Replies on success

  /** A part the OpenAI reply keeps: a dict whose "type" is "text". */
  predicate IsTextPart(part: Value) {
    part.Obj? && Get(part.fields, "type", Null) == Str("text")
  }

  /** part.get("text", "") of a dict part. */
  function PartText(part: Value): Value
    requires part.Obj?
  {
    Get(part.fields, "text", Str(""))
  }

  /** The texts of the text parts, in order, every other part left out. */
  function TextPartTexts(parts: seq<Value>): seq<string> {
    if parts == [] then []
    else
      var here := if IsTextPart(parts[0]) && PartText(parts[0]).Str? then [PartText(parts[0]).s] else [];
      here + TextPartTexts(parts[1..])
  }

  /** Selecting text parts commutes with concatenating content lists. */
  lemma {:induction false} TextPartTextsAppend(a: seq<Value>, b: seq<Value>)
    ensures TextPartTexts(a + b) == TextPartTexts(a) + TextPartTexts(b)
  {
    if a != [] {
      assert (a + b)[1..] == a[1..] + b;
      TextPartTextsAppend(a[1..], b);
    } else {
      assert a + b == b;
    }
  }

  /** The generator over the content list: `part.get("type")` fails on a part that is
      not a dict, and join fails on a text part whose text is not a str. */
  function OpenAITexts(parts: seq<Value>): (r: Result<seq<string>>)
    ensures r.Ok? <==> forall i :: 0 <= i < |parts| ==> parts[i].Obj? && (IsTextPart(parts[i]) ==> PartText(parts[i]).Str?)
    ensures r.Ok? ==> r.value == TextPartTexts(parts)
    ensures r.Err? ==> r == Err(MalformedResponse)
  {
    if parts == [] then Ok([])
    else
      var part := parts[0];
      if !part.Obj? then Err(MalformedResponse)
      else
        var rest :- OpenAITexts(parts[1..]);
        if Get(part.fields, "type", Null) == Str("text") then
          var t := Get(part.fields, "text", Str(""));
          if t.Str? then Ok([t.s] + rest) else Err(MalformedResponse)
        else Ok(rest)
  }

  /** The reply text of an OpenAI message content: for a list, its text parts joined by
      newlines; otherwise str(content); stripped either way. */
  function OpenAIText(codec: Codec, content: Value): (r: Result<string>)
    ensures r.Ok? ==> IsStripped(r.value)
    ensures content.Arr? ==> (r.Ok? <==> OpenAITexts(content.items).Ok?)
    ensures content.Arr? && r.Ok? ==> r.value == Strip(Join("\n", TextPartTexts(content.items)))
    ensures !content.Arr? ==> r == Ok(Strip(codec.show(content)))
  {
    if content.Arr? then
      var texts :- OpenAITexts(content.items);
      StripShape(Join("\n", texts));
      Ok(Strip(Join("\n", texts)))
    else
      StripShape(codec.show(content));
      Ok(Strip(codec.show(content)))
  }

  /** The first element of data[key] when that is a non-empty list whose first element
      is a dict. */
  function FirstEntry(data: Object, key: string): Option<Object> {
    var xs := Get(data, key, Null);
    if xs.Arr? && xs.items != [] && xs.items[0].Obj? then Some(xs.items[0].fields) else None
  }

  /** The parser's fallback reason: the truncation hint when the entry's finish field
      is the provider's word for "cut short by length", otherwise none. */
  function Fallback(entry: Object, field: string, reason: string): (fb: Option<string>)
    ensures fb.Some? <==> field in entry && entry[field] == Str(reason)
    ensures fb.Some? ==> fb.value == TruncationMessage
  {
    if Get(entry, field, Null) == Str(reason) then Some(TruncationMessage) else None
  }

  /** Reading a successful OpenAI reply: choices[0].message.content and its
      finish_reason, which when "length" becomes the parser's fallback reason. */
  function OpenAIReply(codec: Codec, body: string): (r: Result<Object>)
    ensures codec.decode(body).None? ==> r == Err(JsonDecodeError)
    ensures codec.decode(body).Some? && !codec.decode(body).value.Obj? ==> r == Err(MalformedResponse)
    ensures (codec.decode(body).Some? && codec.decode(body).value.Obj?
             && !Truthy(Get(codec.decode(body).value.fields, "choices", Null))) ==> r == Err(RuntimeError(NoChoicesMessage))
    ensures r.Ok? ==>
              && r.value.Keys == {"output_text", "json"} && r.value["output_text"].Str?
              && codec.decode(body).Some? && codec.decode(body).value.Obj?
              && var choice := FirstEntry(codec.decode(body).value.fields, "choices");
              && choice.Some?
              && var message := Get(choice.value, "message", Obj(map[]));
              && message.Obj?
              && OpenAIText(codec, Get(message.fields, "content", Str(""))) == Ok(r.value["output_text"].s)
              && r.value["json"] == ParseJsonResponse(codec, r.value["output_text"].s, Fallback(choice.value, "finish_reason", "length"))
    ensures (&& codec.decode(body).Some? && codec.decode(body).value.Obj?
             && var choice := FirstEntry(codec.decode(body).value.fields, "choices");
             && choice.Some?
             && var message := Get(choice.value, "message", Obj(map[]));
             && message.Obj? && OpenAIText(codec, Get(message.fields, "content", Str(""))).Ok?)
            ==> r.Ok?
  {
    match codec.decode(body)
    case None => Err(JsonDecodeError)
    case Some(data) =>
      if !data.Obj? then Err(MalformedResponse)
      else
        var choices := Get(data.fields, "choices", Null);
        if !Truthy(choices) then Err(RuntimeError(NoChoicesMessage))
        else if !choices.Arr? then Err(MalformedResponse)
        else
          var first := choices.items[0];
          if !first.Obj? then Err(MalformedResponse)
          else
            var message := Get(first.fields, "message", Obj(map[]));
            if !message.Obj? then Err(MalformedResponse)
            else
              var text :- OpenAIText(codec, Get(message.fields, "content", Str("")));
              Ok(ChatResult(text, ParseJsonResponse(codec, text, Fallback(first.fields, "finish_reason", "length"))))
  }

  /** The texts of the dict parts that have a str "text", in order. */
  function KeyedTexts(parts: seq<Value>): seq<string> {
    if parts == [] then []
    else
      var here := if parts[0].Obj? && "text" in parts[0].fields && parts[0].fields["text"].Str? then [parts[0].fields["text"].s] else [];
      here + KeyedTexts(parts[1..])
  }

  /** One Gemini part gets through `"text" in part` and `part.get("text", "")` and the
      join: a dict whose "text", if any, is a str; a str without the substring "text";
      a list not holding "text". Other values fail the `in` test. */
  predicate GeminiPartReadable(part: Value) {
    match part
    case Obj(f) => "text" !in f || f["text"].Str?
    case Str(s) => !Contains(s, "text")
    case Arr(xs) => Str("text") !in xs
    case _ => false
  }

  /** The text of the Gemini parts that have "text", in order. */
  function GeminiTexts(parts: seq<Value>): (r: Result<seq<string>>)
    ensures r.Ok? <==> forall i :: 0 <= i < |parts| ==> GeminiPartReadable(parts[i])
    ensures r.Ok? ==> r.value == KeyedTexts(parts)
    ensures r.Err? ==> r == Err(MalformedResponse)
  {
    if parts == [] then Ok([])
    else
      var here: seq<string> :-
        match parts[0]
        case Obj(f) => if "text" !in f then Ok([]) else if f["text"].Str? then Ok([f["text"].s]) else Err(MalformedResponse)
        case Str(s) => if Contains(s, "text") then Err(MalformedResponse) else Ok([])
        case Arr(xs) => if Str("text") in xs then Err(MalformedResponse) else Ok([])
        case _ => Err(MalformedResponse);
      var rest :- GeminiTexts(parts[1..]);
      Ok(here + rest)
  }

  /** Iterating the parts value: a list part by part, a string character by character
      (no character contains "text"), a dict key by key (a key containing "text" fails
      on .get); anything else is not iterable. */
  function GeminiPartsTexts(parts: Value): (r: Result<seq<string>>)
    ensures parts.Arr? ==> r == GeminiTexts(parts.items)
    ensures parts.Str? ==> r == Ok([])
    ensures parts.Obj? ==> (r.Ok? <==> forall k :: k in parts.fields ==> !Contains(k, "text"))
    ensures parts.Obj? && r.Ok? ==> r.value == []
    ensures parts.Null? || parts.Bool? || parts.Num? ==> r == Err(MalformedResponse)
  {
    match parts
    case Arr(xs) => GeminiTexts(xs)
    case Str(_) => Ok([])
    case Obj(f) => if exists k :: k in f && Contains(k, "text") then Err(MalformedResponse) else Ok([])
    case _ => Err(MalformedResponse)
  }

  /** candidates[0].content.parts can be read: candidates is a list whose first element
      is a dict, its content (default {}) is a dict, and its parts (default []) get
      through the generator. */
  predicate GeminiReadable(data: Object) {
    && FirstEntry(data, "candidates").Some?
    && var content := Get(FirstEntry(data, "candidates").value, "content", Obj(map[]));
    && content.Obj?
    && GeminiPartsTexts(Get(content.fields, "parts", Arr([]))).Ok?
  }

  /** Reading a successful Gemini reply: candidates[0].content.parts concatenated, and a
      finishReason of "MAX_TOKENS" as the parser's fallback reason. No candidates is an
      empty text. */
  function GeminiReply(codec: Codec, body: string): (r: Result<Object>)
    ensures codec.decode(body).None? ==> r == Err(JsonDecodeError)
    ensures codec.decode(body).Some? && !codec.decode(body).value.Obj? ==> r == Err(MalformedResponse)
    ensures (codec.decode(body).Some? && codec.decode(body).value.Obj?
             && !Truthy(Get(codec.decode(body).value.fields, "candidates", Null))) ==>
              r == Ok(ChatResult("", NgDecision(EmptyResponse)))
    ensures r.Ok? ==> r.value.Keys == {"output_text", "json"} && r.value["output_text"].Str?
    ensures codec.decode(body).Some? && codec.decode(body).value.Obj?
            && Truthy(Get(codec.decode(body).value.fields, "candidates", Null)) ==>
              (r.Ok? <==> GeminiReadable(codec.decode(body).value.fields))
    ensures r.Err? ==> r.fault in {JsonDecodeError, MalformedResponse}
    ensures r.Ok? && Truthy(Get(codec.decode(body).value.fields, "candidates", Null)) ==>
              && var candidate := FirstEntry(codec.decode(body).value.fields, "candidates");
              && candidate.Some?
              && var content := Get(candidate.value, "content", Obj(map[]));
              && content.Obj?
              && var texts := GeminiPartsTexts(Get(content.fields, "parts", Arr([])));
              && texts.Ok?
              && r.value["output_text"] == Str(Strip(Join("", texts.value)))
              && r.value["json"] == ParseJsonResponse(codec, r.value["output_text"].s, Fallback(candidate.value, "finishReason", "MAX_TOKENS"))
  {
    match codec.decode(body)
    case None => Err(JsonDecodeError)
    case Some(data) =>
      if !data.Obj? then Err(MalformedResponse)
      else
        var candidates := Get(data.fields, "candidates", Null);
        if !Truthy(candidates) then Ok(ChatResult("", ParseJsonResponse(codec, "", None)))
        else if !candidates.Arr? then Err(MalformedResponse)
        else
          var first := candidates.items[0];
          if !first.Obj? then Err(MalformedResponse)
          else
            var content := Get(first.fields, "content", Obj(map[]));
            if !content.Obj? then Err(MalformedResponse)
            else
              var texts :- GeminiPartsTexts(Get(content.fields, "parts", Arr([])));
              var text := Strip(Join("", texts));
              Ok(ChatResult(text, ParseJsonResponse(codec, text, Fallback(first.fields, "finishReason", "MAX_TOKENS"))))
  }

  function Reply(kind: ProviderKind, codec: Codec, body: string): Result<Object> {
    match kind
    case OpenAI => OpenAIReply(codec, body)
    case Gemini => GeminiReply(codec, body)
  }

  /** A reply cut short by length whose text holds no parseable JSON, neither whole nor
      as a brace span, is NG with the truncation hint; the same text without the
      length mark is NG with the text itself (the empty-response marker when empty). */
  lemma TruncatedUnparseableReplyIsNg(codec: Codec, kind: ProviderKind, body: string)
    requires Reply(kind, codec, body).Ok?
    requires var t := Reply(kind, codec, body).value["output_text"].s;
             t == [] || (codec.decode(t).None? && (BraceSpan(t).None? || codec.decode(BraceSpan(t).value).None?))
    requires codec.decode(body).Some? && codec.decode(body).value.Obj?
    requires var data := codec.decode(body).value.fields;
             var key := if kind == OpenAI then "choices" else "candidates";
             Truthy(Get(data, key, Null))
    ensures var data := codec.decode(body).value.fields;
            var key := if kind == OpenAI then "choices" else "candidates";
            var mark := if kind == OpenAI then "finish_reason" else "finishReason";
            var reason := if kind == OpenAI then "length" else "MAX_TOKENS";
            var t := Reply(kind, codec, body).value["output_text"].s;
            var entry := FirstEntry(data, key);
            && entry.Some?
            && (mark in entry.value && entry.value[mark] == Str(reason) ==> Reply(kind, codec, body).value["json"] == NgDecision(TruncationMessage))
            && (!(mark in entry.value && entry.value[mark] == Str(reason)) ==>
                  Reply(kind, codec, body).value["json"] == NgDecision(if t == [] then EmptyResponse else t))
  {
  }

  // ---------------------------------------------------------------------------
  // The recovery protocol

  /** What the client does with the server's answers to `request` and, if it gets that
      far, to `retry` (the same request without temperature): the reply or exception,
      and the requests it sent. */
  function Exchange(kind: ProviderKind, codec: Codec, script: Script, request: Post, retry: Post): (res: (Result<Object>, seq<Post>))
    ensures res.1 == [request] || res.1 == [request, retry]
    ensures |res.1| == 2 <==>
              script.first.Delivered? && IsHttpError(script.first.response.status)
              && !Truncated(kind, ExtractErrorDetails(codec, script.first.response))
              && TemperatureRejected(ExtractErrorDetails(codec, script.first.response))
  {
    match script.first
    case Unreachable => (Err(TransportError), [request])
    case Delivered(resp) =>
      if !IsHttpError(resp.status) then (Reply(kind, codec, resp.body), [request])
      else
        var details := ExtractErrorDetails(codec, resp);
        if Truncated(kind, details) then (Ok(ChatResult(details, TruncationDecision(details))), [request])
        else if !TemperatureRejected(details) then (Ok(ChatResult(details, ErrorDecision(details))), [request])
        else
          match script.retry
          case Unreachable => (Err(TransportError), [request, retry])
          case Delivered(resp2) =>
            if !IsHttpError(resp2.status) then (Reply(kind, codec, resp2.body), [request, retry])
            else
              var details2 := ExtractErrorDetails(codec, resp2);
              (Ok(ChatResult(details2, ErrorDecision(details2))), [request, retry])
  }

  /** The truncation test comes first and never retries, even when the error text also
      asks for the default temperature. */
  lemma TruncationNeverRetries(kind: ProviderKind, codec: Codec, script: Script, request: Post, retry: Post, resp: HttpResponse)
    requires script.first == Delivered(resp) && IsHttpError(resp.status)
    requires Truncated(kind, ExtractErrorDetails(codec, resp))
    ensures var d := ExtractErrorDetails(codec, resp);
            Exchange(kind, codec, script, request, retry) == (Ok(ChatResult(d, TruncationDecision(d))), [request])
  {
  }

  /** A temperature rejection whose retry also fails ends as ERROR with the retry's
      error text. */
  lemma FailedRetryReportsSecondError(kind: ProviderKind, codec: Codec, script: Script, request: Post, retry: Post, r1: HttpResponse, r2: HttpResponse)
    requires script.first == Delivered(r1) && IsHttpError(r1.status)
    requires !Truncated(kind, ExtractErrorDetails(codec, r1)) && TemperatureRejected(ExtractErrorDetails(codec, r1))
    requires script.retry == Delivered(r2) && IsHttpError(r2.status)
    ensures var d := ExtractErrorDetails(codec, r2);
            Exchange(kind, codec, script, request, retry) == (Ok(ChatResult(d, ErrorDecision(d))), [request, retry])
  {
  }

  /** A temperature rejection whose retry succeeds reads the retry's reply. */
  lemma SucceededRetryReadsReply(kind: ProviderKind, codec: Codec, script: Script, request: Post, retry: Post, r1: HttpResponse, r2: HttpResponse)
    requires script.first == Delivered(r1) && IsHttpError(r1.status)
    requires !Truncated(kind, ExtractErrorDetails(codec, r1)) && TemperatureRejected(ExtractErrorDetails(codec, r1))
    requires script.retry == Delivered(r2) && !IsHttpError(r2.status)
    ensures Exchange(kind, codec, script, request, retry) == (Reply(kind, codec, r2.body), [request, retry])
  {
  }

  /** Any other HTTP error is ERROR with the raw error text, and nothing is retried. */
  lemma OtherErrorNoRetry(kind: ProviderKind, codec: Codec, script: Script, request: Post, retry: Post, r1: HttpResponse)
    requires script.first == Delivered(r1) && IsHttpError(r1.status)
    requires !Truncated(kind, ExtractErrorDetails(codec, r1)) && !TemperatureRejected(ExtractErrorDetails(codec, r1))
    ensures var d := ExtractErrorDetails(codec, r1);
            Exchange(kind, codec, script, request, retry) == (Ok(ChatResult(d, ErrorDecision(d))), [request])
  {
  }

  /** A first answer that is not an HTTP error is read as the reply, with no retry. */
  lemma SuccessReadsReply(kind: ProviderKind, codec: Codec, script: Script, request: Post, retry: Post, r1: HttpResponse)
    requires script.first == Delivered(r1) && !IsHttpError(r1.status)
    ensures Exchange(kind, codec, script, request, retry) == (Reply(kind, codec, r1.body), [request])
  {
  }

  // ---------------------------------------------------------------------------
  // Request bodies

  /** temperature is sent unless it is None or 1. */
  predicate TemperatureSent(t: Option<real>) {
    t.Some? && t.value != 1.0
  }

  function TextPart(text: string): Value {
    Obj(map["type" := Str("text"), "text" := Str(text)])
  }

  function ImagePart(uri: Value): Value {
    Obj(map["type" := Str("image_url"), "image_url" := Obj(map["url" := uri])])
  }

  /** The user content list: the text if any, the image if any, else one empty text. */
  function OpenAIContent(s: Split): (c: seq<Value>)
    ensures 1 <= |c| <= 2
    ensures s.userText != [] ==> c[0] == TextPart(s.userText)
    ensures Truthy(s.imageUri) ==> c[|c| - 1] == ImagePart(s.imageUri)
    ensures |c| == 2 <==> s.userText != [] && Truthy(s.imageUri)
    ensures s.userText == [] && !Truthy(s.imageUri) ==> c == [TextPart("")]
  {
    var texts := if s.userText != [] then [TextPart(s.userText)] else [];
    var images := if Truthy(s.imageUri) then [ImagePart(s.imageUri)] else [];
    if texts + images == [] then [TextPart("")] else texts + images
  }

  /** The OpenAI chat-completions body. */
  function OpenAIPayload(p: LLMProvider, model: string, s: Split): (b: Object)
    ensures {"model", "messages", "response_format"} <= b.Keys
    ensures b["model"] == Str(model)
    ensures b["response_format"] == Obj(map["type" := Str("json_object")])
    ensures b["messages"] == Arr([Obj(map["role" := Str("system"), "content" := Str(s.systemText)]),
                                  Obj(map["role" := Str("user"), "content" := Arr(OpenAIContent(s))])])
    ensures "temperature" in b <==> TemperatureSent(p.temperature)
    ensures "temperature" in b ==> b["temperature"] == Num(p.temperature.value)
    ensures "max_completion_tokens" in b <==> p.maxTokens != 0
    ensures "max_completion_tokens" in b ==> b["max_completion_tokens"] == Num(p.maxTokens as real)
    ensures b.Keys - {"temperature", "max_completion_tokens"} == {"model", "messages", "response_format"}
  {
    var base := map["model" := Str(model),
                     "messages" := Arr([Obj(map["role" := Str("system"), "content" := Str(s.systemText)]),
                                        Obj(map["role" := Str("user"), "content" := Arr(OpenAIContent(s))])]),
                     "response_format" := Obj(map["type" := Str("json_object")])];
    var withTemp := if TemperatureSent(p.temperature) then base["temperature" := Num(p.temperature.value)] else base;
    if p.maxTokens != 0 then withTemp["max_completion_tokens" := Num(p.maxTokens as real)] else withTemp
  }

  /** The Gemini prompt: the non-empty ones of system and user text, joined by a blank line. */
  function PromptText(s: Split): (t: string)
    ensures s.systemText == [] ==> t == s.userText
    ensures s.userText == [] ==> t == s.systemText
    ensures s.systemText != [] && s.userText != [] ==> t == s.systemText + "\n\n" + s.userText
  {
    var parts := (if s.systemText != [] then [s.systemText] else []) + (if s.userText != [] then [s.userText] else []);
    assert s.systemText != [] && s.userText != [] ==>
             parts == [s.systemText, s.userText] && Join("\n\n", parts) == s.systemText + "\n\n" + Join("\n\n", [s.userText]);
    Join("\n\n", parts)
  }

  function InlinePart(d: (string, string)): Value {
    Obj(map["inlineData" := Obj(map["mimeType" := Str(d.0), "data" := Str(d.1)])])
  }

  /** The Gemini user parts: the prompt text if any, the inline image if any, else one
      part holding the empty prompt. */
  function GeminiParts(s: Split): (ps: seq<Value>)
    ensures 1 <= |ps| <= 2
    ensures s.inlineData.Some? ==> ps[|ps| - 1] == InlinePart(s.inlineData.value)
    ensures PromptText(s) != [] ==> ps[0] == Obj(map["text" := Str(PromptText(s))])
    ensures |ps| == 2 <==> PromptText(s) != [] && s.inlineData.Some?
    ensures PromptText(s) == [] && s.inlineData.None? ==> ps == [Obj(map["text" := Str("")])]
  {
    var texts := if PromptText(s) != [] then [Obj(map["text" := Str(PromptText(s))])] else [];
    var images := if s.inlineData.Some? then [InlinePart(s.inlineData.value)] else [];
    if texts + images == [] then [Obj(map["text" := Str(PromptText(s))])] else texts + images
  }

  /** The generationConfig object: temperature unless None or 1, maxOutputTokens when
      max_tokens is non-zero. */
  function GenerationConfig(p: LLMProvider): (g: Object)
    ensures "temperature" in g <==> TemperatureSent(p.temperature)
    ensures "temperature" in g ==> g["temperature"] == Num(p.temperature.value)
    ensures "maxOutputTokens" in g <==> p.maxTokens != 0
    ensures "maxOutputTokens" in g ==> g["maxOutputTokens"] == Num(p.maxTokens as real)
    ensures g.Keys <= {"temperature", "maxOutputTokens"}
  {
    var withTemp: Object := if TemperatureSent(p.temperature) then map["temperature" := Num(p.temperature.value)] else map[];
    if p.maxTokens != 0 then withTemp["maxOutputTokens" := Num(p.maxTokens as real)] else withTemp
  }

  /** The Gemini generateContent body. */
  function GeminiPayload(p: LLMProvider, s: Split): (b: Object)
    ensures b.Keys == {"contents", "generationConfig", "responseMimeType"}
    ensures b["contents"] == Arr([Obj(map["role" := Str("user"), "parts" := Arr(GeminiParts(s))])])
    ensures b["generationConfig"] == Obj(GenerationConfig(p))
    ensures b["responseMimeType"] == Str("application/json")
  {
    map["contents" := Arr([Obj(map["role" := Str("user"), "parts" := Arr(GeminiParts(s))])]),
        "generationConfig" := Obj(GenerationConfig(p)),
        "responseMimeType" := Str("application/json")]
  }

  /** The Gemini body for the retry: generationConfig without temperature. */
  function GeminiRetryPayload(b: Object): Object {
    if "generationConfig" in b && b["generationConfig"].Obj? then
      b["generationConfig" := Obj(b["generationConfig"].fields - {"temperature"})]
    else b
  }

  /** The retry drops only the temperature: the token limit and the rest stay. */
  lemma RetryDropsOnlyTemperature(p: LLMProvider, model: string, s: Split)
    ensures var b := OpenAIPayload(p, model, s) - {"temperature"};
            "temperature" !in b && ("max_completion_tokens" in b <==> p.maxTokens != 0) && b["messages"] == OpenAIPayload(p, model, s)["messages"]
    ensures var g := GeminiRetryPayload(GeminiPayload(p, s))["generationConfig"];
            g.Obj? && "temperature" !in g.fields && ("maxOutputTokens" in g.fields <==> p.maxTokens != 0)
  {
  }

  // ---------------------------------------------------------------------------
  // The two clients

  /** What _runtime_openai_chat does: the key check before anything is sent, the split,
      the request, the recovery protocol. */
  function OpenAIChatSpec(p: LLMProvider, messages: seq<Object>, environ: map<string, string>, script: Script, codec: Codec): (res: (Result<Object>, seq<Post>))
    ensures Strip(GetEnv(environ, "OPENAI_API_KEY", "")) == [] ==> res == (Err(RuntimeError(MissingOpenAIKey)), [])
    ensures res.1 != [] ==> res.1[0].url == OpenAIUrl && res.1[0].authorization == Some("Bearer " + Strip(GetEnv(environ, "OPENAI_API_KEY", "")))
    ensures |res.1| <= 2
  {
    var key := Strip(GetEnv(environ, "OPENAI_API_KEY", ""));
    if key == [] then (Err(RuntimeError(MissingOpenAIKey)), [])
    else
      match SplitAll(codec, messages)
      case Err(f) => (Err(f), [])
      case Ok(s) =>
        var model := if p.model != [] then p.model else GetEnv(environ, "OPENAI_MODEL", DefaultOpenAIModel);
        var request := Post(OpenAIUrl, Some("Bearer " + key), OpenAIPayload(p, model, s));
        Exchange(OpenAI, codec, script, request, request.(body := request.body - {"temperature"}))
  }

  /** What _runtime_gemini_chat does: the key check before anything is sent, the split,
      the request (key and model in the URL), the recovery protocol. */
  function GeminiChatSpec(p: LLMProvider, messages: seq<Object>, environ: map<string, string>, script: Script, codec: Codec): (res: (Result<Object>, seq<Post>))
    ensures Strip(GetEnv(environ, "GEMINI_API_KEY", "")) == [] ==> res == (Err(RuntimeError(MissingGeminiKey)), [])
    ensures res.1 != [] ==> res.1[0].authorization.None?
    ensures |res.1| <= 2
  {
    var key := Strip(GetEnv(environ, "GEMINI_API_KEY", ""));
    if key == [] then (Err(RuntimeError(MissingGeminiKey)), [])
    else
      match SplitAll(codec, messages)
      case Err(f) => (Err(f), [])
      case Ok(s) =>
        var model := if p.model != [] then p.model else GetEnv(environ, "GEMINI_MODEL", DefaultGeminiModel);
        var request := Post(GeminiUrl(model, key), None, GeminiPayload(p, s));
        Exchange(Gemini, codec, script, request, request.(body := GeminiRetryPayload(request.body)))
  }

  /** Every OpenAI request goes to the chat-completions endpoint with the stripped key as
      bearer token, and the retry differs from the first request only in temperature. */
  lemma OpenAIRequestsAuthorized(p: LLMProvider, messages: seq<Object>, environ: map<string, string>, script: Script, codec: Codec)
    ensures var res := OpenAIChatSpec(p, messages, environ, script, codec);
            forall i :: 0 <= i < |res.1| ==>
              && res.1[i].url == OpenAIUrl
              && res.1[i].authorization == Some("Bearer " + Strip(GetEnv(environ, "OPENAI_API_KEY", "")))
              && res.1[i].body - {"temperature"} == res.1[0].body - {"temperature"}
    ensures var res := OpenAIChatSpec(p, messages, environ, script, codec);
            |res.1| == 2 ==> "temperature" !in res.1[1].body
  {
    var key := Strip(GetEnv(environ, "OPENAI_API_KEY", ""));
    if key != [] && SplitAll(codec, messages).Ok? {
      var s := SplitAll(codec, messages).value;
      var model := if p.model != [] then p.model else GetEnv(environ, "OPENAI_MODEL", DefaultOpenAIModel);
      var request := Post(OpenAIUrl, Some("Bearer " + key), OpenAIPayload(p, model, s));
      var retry := request.(body := request.body - {"temperature"});
      assert OpenAIChatSpec(p, messages, environ, script, codec) == Exchange(OpenAI, codec, script, request, retry);
      assert retry.body - {"temperature"} == request.body - {"temperature"};
    }
  }

  /** Every request of an exchange goes to the URL of the first, with its Authorization
      header, when the retry only changes the body. */
  lemma ExchangeKeepsAddress(kind: ProviderKind, codec: Codec, script: Script, request: Post, retry: Post)
    requires retry.url == request.url && retry.authorization == request.authorization
    ensures var posts := Exchange(kind, codec, script, request, retry).1;
            forall i :: 0 <= i < |posts| ==> posts[i].url == request.url && posts[i].authorization == request.authorization
  {
    var posts := Exchange(kind, codec, script, request, retry).1;
    assert posts == [request] || posts == [request, retry];
  }

  /** Every Gemini request carries the key in its URL, not in a header. */
  lemma GeminiRequestsUnauthorized(p: LLMProvider, messages: seq<Object>, environ: map<string, string>, script: Script, codec: Codec)
    ensures var res := GeminiChatSpec(p, messages, environ, script, codec);
            forall i :: 0 <= i < |res.1| ==> res.1[i].authorization.None? && res.1[i].url == res.1[0].url
  {
    var key := Strip(GetEnv(environ, "GEMINI_API_KEY", ""));
    if key != [] && SplitAll(codec, messages).Ok? {
      var s := SplitAll(codec, messages).value;
      var model := if p.model != [] then p.model else GetEnv(environ, "GEMINI_MODEL", DefaultGeminiModel);
      var request := Post(GeminiUrl(model, key), None, GeminiPayload(p, s));
      var retry := request.(body := GeminiRetryPayload(request.body));
      assert GeminiChatSpec(p, messages, environ, script, codec) == Exchange(Gemini, codec, script, request, retry);
      ExchangeKeepsAddress(Gemini, codec, script, request, retry);
    }
  }

  /** The Gemini retry differs from the first request only in
      generationConfig.temperature. */
  lemma GeminiRetryDropsTemperature(p: LLMProvider, messages: seq<Object>, environ: map<string, string>, script: Script, codec: Codec)
    ensures var res := GeminiChatSpec(p, messages, environ, script, codec);
            |res.1| == 2 ==>
              var g := res.1[1].body["generationConfig"];
              && g.Obj? && "temperature" !in g.fields
              && res.1[1].body["contents"] == res.1[0].body["contents"]
              && g.fields == res.1[0].body["generationConfig"].fields - {"temperature"}
  {
    var key := Strip(GetEnv(environ, "GEMINI_API_KEY", ""));
    if key != [] && SplitAll(codec, messages).Ok? {
      var s := SplitAll(codec, messages).value;
      var model := if p.model != [] then p.model else GetEnv(environ, "GEMINI_MODEL", DefaultGeminiModel);
      var b := GeminiPayload(p, s);
      var request := Post(GeminiUrl(model, key), None, b);
      var b2 := b["generationConfig" := Obj(GenerationConfig(p) - {"temperature"})];
      assert GeminiRetryPayload(b) == b2;
      assert b2["contents"] == b["contents"];
      var retry := request.(body := b2);
      assert GeminiChatSpec(p, messages, environ, script, codec) == Exchange(Gemini, codec, script, request, retry);
    }
  }

  /** The OpenAI body as _runtime_openai_chat assembles it, list append by list append
      and key by key. */
  method BuildOpenAIPayload(p: LLMProvider, model: string, s: Split) returns (payload: Object)
    ensures payload == OpenAIPayload(p, model, s)
  {
    var content: seq<Value> := [];
    if s.userText != [] {
      content := content + [TextPart(s.userText)];
    }
    if Truthy(s.imageUri) {
      content := content + [ImagePart(s.imageUri)];
    }
    if content == [] {
      content := content + [TextPart("")];
    }
    assert content == OpenAIContent(s);
    payload := map[
      "model" := Str(model),
      "messages" := Arr([Obj(map["role" := Str("system"), "content" := Str(s.systemText)]),
                         Obj(map["role" := Str("user"), "content" := Arr(content)])]),
      "response_format" := Obj(map["type" := Str("json_object")])];
    if TemperatureSent(p.temperature) {
      payload := payload["temperature" := Num(p.temperature.value)];
    }
    if p.maxTokens != 0 {
      payload := payload["max_completion_tokens" := Num(p.maxTokens as real)];
    }
  }

  /** The Gemini body as _runtime_gemini_chat assembles it. */
  method BuildGeminiPayload(p: LLMProvider, s: Split) returns (payload: Object)
    ensures payload == GeminiPayload(p, s)
  {
    var promptText := PromptText(s);
    var parts: seq<Value> := [];
    if promptText != [] {
      parts := parts + [Obj(map["text" := Str(promptText)])];
    }
    if s.inlineData.Some? {
      var (mime, data) := s.inlineData.value;
      parts := parts + [InlinePart((mime, data))];
    }
    if parts == [] {
      parts := [Obj(map["text" := Str(promptText)])];
    }
    assert parts == GeminiParts(s);
    var generationConfig: Object := map[];
    if TemperatureSent(p.temperature) {
      generationConfig := generationConfig["temperature" := Num(p.temperature.value)];
    }
    if p.maxTokens != 0 {
      generationConfig := generationConfig["maxOutputTokens" := Num(p.maxTokens as real)];
    }
    assert generationConfig == GenerationConfig(p);
    payload := map[
      "contents" := Arr([Obj(map["role" := Str("user"), "parts" := Arr(parts)])]),
      "generationConfig" := Obj(generationConfig),
      "responseMimeType" := Str("application/json")];
  }

  /** The POST, raise_for_status and recovery steps the two clients share: the request,
      and the retry to send should the error text ask for the default temperature. */
  method Send(kind: ProviderKind, codec: Codec, script: Script, request: Post, retry: Post)
    returns (r: Result<Object>, sent: seq<Post>)
    ensures (r, sent) == Exchange(kind, codec, script, request, retry)
  {
    sent := [request];
    if script.first.Unreachable? {
      return Err(TransportError), sent;
    }
    var response := script.first.response;
    if IsHttpError(response.status) {
      var details := ExtractErrorDetails(codec, response);
      if Truncated(kind, details) {
        return Ok(ChatResult(details, TruncationDecision(details))), sent;
      }
      if TemperatureRejected(details) {
        sent := sent + [retry];
        assert sent == [request, retry];
        if script.retry.Unreachable? {
          assert Exchange(kind, codec, script, request, retry) == (Err(TransportError), [request, retry]);
          return Err(TransportError), sent;
        }
        response := script.retry.response;
        if IsHttpError(response.status) {
          details := ExtractErrorDetails(codec, response);
          return Ok(ChatResult(details, ErrorDecision(details))), sent;
        }
      } else {
        return Ok(ChatResult(details, ErrorDecision(details))), sent;
      }
    }
    r := Reply(kind, codec, response.body);
  }

  /** _runtime_openai_chat. */
  method OpenAIChat(p: LLMProvider, messages: seq<Object>, environ: map<string, string>, script: Script, codec: Codec)
    returns (r: Result<Object>, sent: seq<Post>)
    ensures (r, sent) == OpenAIChatSpec(p, messages, environ, script, codec)
  {
    var key := Strip(GetEnv(environ, "OPENAI_API_KEY", ""));
    if key == [] {
      return Err(RuntimeError(MissingOpenAIKey)), [];
    }
    var split := SplitMessages(codec, messages);
    if split.Err? {
      return Err(split.fault), [];
    }
    var model := if p.model != [] then p.model else GetEnv(environ, "OPENAI_MODEL", DefaultOpenAIModel);
    var payload := BuildOpenAIPayload(p, model, split.value);
    var request := Post(OpenAIUrl, Some("Bearer " + key), payload);
    payload := payload - {"temperature"};
    r, sent := Send(OpenAI, codec, script, request, request.(body := payload));
  }

  /** _runtime_gemini_chat. */
  method GeminiChat(p: LLMProvider, messages: seq<Object>, environ: map<string, string>, script: Script, codec: Codec)
    returns (r: Result<Object>, sent: seq<Post>)
    ensures (r, sent) == GeminiChatSpec(p, messages, environ, script, codec)
  {
    var key := Strip(GetEnv(environ, "GEMINI_API_KEY", ""));
    if key == [] {
      return Err(RuntimeError(MissingGeminiKey)), [];
    }
    var split := SplitMessages(codec, messages);
    if split.Err? {
      return Err(split.fault), [];
    }
    var model := if p.model != [] then p.model else GetEnv(environ, "GEMINI_MODEL", DefaultGeminiModel);
    var payload := BuildGeminiPayload(p, split.value);
    var request := Post(GeminiUrl(model, key), None, payload);
    payload := GeminiRetryPayload(payload);
    r, sent := Send(Gemini, codec, script, request, request.(body := payload));
  }
}
