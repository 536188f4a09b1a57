/** The prompt bundle builder: the system prompt and the user payload given to the
    vision backend. */
module PromptFactory {
  import opened Json

  /** The fixed system prompt (Japanese): the model is a visual-inspection expert that
      answers only with JSON of the shape {"verdict", "details", "checks"}. */
  const SystemPrompt: string :=
    "あなたは製造業の外観検査エキスパートです。\n"
    + "ユーザが入力した日本語仕様に基づき、与えられた画像全体に対して厳密で一貫したOK/NG判定を行います。\n"
    + "応答はJSONのみで出力してください（自然文は出力しない）。JSONスキーマ: {\"verdict\": \"OK|NG\", \"details\": \"日本語説明\", \"checks\": [{\"result\": \"OK|NG\", \"reason\": \"str\"}]}。\n"
    + "視点の傾き・遠近がある場合も可能な限り判定のロバスト性を維持し、根拠をdetailsに明記してください。\n"

  /** The fixed user instruction: check the whole image against the specification and
      answer OK/NG with a reason, consistently, as JSON. */
  const Instruction: string := "画像全体が仕様に合致するか検証し、OK/NGと理由をJSONで一貫して回答してください。"

  /** build_prompt_bundle: the specification text is taken verbatim, even when empty. */
  function BuildPromptBundle(specText: string): (b: Object)
    ensures b.Keys == {"system", "user"}
    ensures b["system"] == Str(SystemPrompt)
    ensures b["user"].Obj? && b["user"].fields.Keys == {"spec_text", "instruction"}
    ensures b["user"].fields["spec_text"] == Str(specText)
    ensures b["user"].fields["instruction"] == Str(Instruction)
  {
    map["system" := Str(SystemPrompt),
        "user" := Obj(map["spec_text" := Str(specText), "instruction" := Str(Instruction)])]
  }

  /** The bundle carries neither ROI data nor exemplars, and its spec text can be read
      back exactly. */
  lemma BundleHasNoAuthoringData(specText: string)
    ensures "few_shots" !in BuildPromptBundle(specText)
    ensures "roi_map" !in BuildPromptBundle(specText)["user"].fields
    ensures BuildPromptBundle(specText)["user"].fields["spec_text"].s == specText
  {
  }
}
