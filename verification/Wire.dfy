/**
 The lines pi prints in RPC mode, as internal/rpc/worker.go tells them apart. JSON
 decoding is not modelled: a line that does not decode is `Other`.
 */
module Wire {

  datatype AssistantEvent =
    | ThinkingDelta(delta: string)
    | ThinkingEnd(content: string)
    | TextDelta(delta: string)
    | TextEnd(content: string)
    | OtherEvent

  datatype Line =
    | Response(id: string, success: bool, error: string)
    | MessageUpdate(event: AssistantEvent)
    | MessageEnd
    | TurnEnd
    | AgentEnd
    | ReplayEndLine
    | ThinkingLevelChanged(level: string)
    | Other(text: string)
}
