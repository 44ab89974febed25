// The events that flow from the parser to the client (internal/stream/events.go).

module Events {
  import opened Wrappers

  datatype ToolCallDelta = ToolCallDelta(index: int, id: string, typ: string, name: string, arguments: string)

  datatype Usage = Usage(promptTokens: int, completionTokens: int, totalTokens: int,
                         cachedTokens: int, cacheWriteTokens: int, completionDetails: string)

  datatype Kind = KDelta | KUsage | KDone

  datatype Event = Event(
    kind: Kind,
    id: string,
    created: int,
    model: string,
    role: string,
    content: string,
    reasoning: string,
    toolCalls: seq<ToolCallDelta>,
    usage: Option<Usage>,
    finishReason: Option<string>
  )

  const DONE := Event(KDone, "", 0, "", "", "", "", [], None, None)
}
