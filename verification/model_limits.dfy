/**
 * Context window sizes by model id.
 */
module ModelLimits {

  const DefaultKey := "default"

  /** The fixed table of context window sizes, in tokens; the entry under
      "default" serves every id the table does not know. */
  const Limits: map<string, nat> := map[
    "claude-sonnet-4-5-20250929" := 1000000,
    "claude-haiku-4-5-20250929" := 1000000,
    "claude-sonnet-4-20250514" := 1000000,
    "claude-opus-4-1-20250805" := 200000,
    "claude-haiku-4-20250514" := 200000,
    "claude-3-5-sonnet-20241022" := 200000,
    "claude-3-5-haiku-20241022" := 200000,
    "claude-3-opus-20240229" := 200000,
    DefaultKey := 200000
  ]

  /** `getContextLimit`: the table entry for `modelId` when it has a non-zero
      one, the default entry otherwise. */
  function GetContextLimit(modelId: string): (limit: nat)
    ensures modelId in Limits ==> limit == Limits[modelId]
    ensures modelId !in Limits ==> limit == 200000
    ensures limit == 200000 || limit == 1000000
  {
    if modelId in Limits && Limits[modelId] != 0 then Limits[modelId] else Limits[DefaultKey]
  }
}
