/** The static price table of the AI models the application calls (US dollars per 1000 tokens). */
module AiPricing {
  import opened Wrappers

  datatype Provider = OpenAI | Gemini

  datatype ModelPrice = ModelPrice(provider: Provider, inputPer1K: real, outputPer1K: real)

  const EmbeddingModel: string := "text-embedding-3-small"
  const GeminiFlashLatest: string := "gemini-flash-latest"
  const GeminiFlashLite: string := "gemini-2.5-flash-lite"
  const Gpt4oMini: string := "gpt-4o-mini"

  const ModelPricing: map<string, ModelPrice> := map[
    EmbeddingModel := ModelPrice(OpenAI, 0.00002, 0.0),
    GeminiFlashLatest := ModelPrice(Gemini, 0.00035, 0.00105),
    GeminiFlashLite := ModelPrice(Gemini, 0.00035, 0.00105),
    Gpt4oMini := ModelPrice(OpenAI, 0.00015, 0.0006)
  ]

  /**
    The price entry of `model` (`MODEL_PRICING[model]`): present for exactly
    the four priced models, and never negative.
  */
  function PriceOf(model: string): (p: Option<ModelPrice>)
    ensures p.Some? <==> model in {EmbeddingModel, GeminiFlashLatest, GeminiFlashLite, Gpt4oMini}
    ensures p.Some? ==> p.value.inputPer1K >= 0.0 && p.value.outputPer1K >= 0.0
    ensures model == EmbeddingModel ==> p == Some(ModelPrice(OpenAI, 0.00002, 0.0))
    ensures model == Gpt4oMini ==> p == Some(ModelPrice(OpenAI, 0.00015, 0.0006))
    ensures model == GeminiFlashLatest || model == GeminiFlashLite ==>
              p == Some(ModelPrice(Gemini, 0.00035, 0.00105))
  {
    if model in ModelPricing then Some(ModelPricing[model]) else None
  }

  /** Exactly four models are priced, and the two Gemini entries carry the same prices. */
  lemma PriceTableShape()
    ensures |ModelPricing| == 4
    ensures ModelPricing[GeminiFlashLatest] == ModelPricing[GeminiFlashLite]
    ensures ModelPricing[EmbeddingModel].outputPer1K == 0.0
  {
    assert ModelPricing.Keys == {EmbeddingModel, GeminiFlashLatest, GeminiFlashLite, Gpt4oMini};
  }
}
