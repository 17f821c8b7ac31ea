/**
 * The events a thread's journal holds, and what each one means to the journal
 * (`src/protocol/sessionEvents.ts`, `src/protocol/journalPolicy.ts`).
 * Events whose payload no rule of the daemon looks at are `Other`.
 */
module Wire {
  datatype RequestKind = Permission | Question | Plan | Elicitation

  datatype WireEvent =
    | Token(text: string)
    | Message(text: string)
    | Done
    | Interrupted(nativeSessionId: string)
    | Failed(name: string)
    | SessionState(turnInFlight: bool)
    | Request(kind: RequestKind, requestId: string)
    | RequestResolved(requestId: string, outcome: string)
    | ToolCall(callId: string)
    | ToolCancel(callId: string)
    | ToolUnavailable(callId: string, reason: string)
    | Other(name: string)

  datatype EventRole =
    | TokenRole(text: string)
    | MessageRole
    | TurnEnd
    | RequestOpen(id: string)
    | RequestClose(id: string)
    | State
    | OtherRole

  /** An empty request id is falsy in the original, so such an event opens and closes nothing. */
  function Classify(event: WireEvent): EventRole {
    match event
    case Token(text) => TokenRole(text)
    case Message(_) => MessageRole
    case Done => TurnEnd
    case Interrupted(_) => TurnEnd
    case Failed(_) => TurnEnd
    case SessionState(_) => State
    case RequestResolved(id, _) => if id != "" then RequestClose(id) else OtherRole
    case ToolCancel(id) => if id != "" then RequestClose(id) else OtherRole
    case Request(_, id) => if id != "" then RequestOpen(id) else OtherRole
    case ToolCall(id) => if id != "" then RequestOpen(id) else OtherRole
    case ToolUnavailable(_, _) => OtherRole
    case Other(_) => OtherRole
  }

  datatype Entry = Entry(seqNo: nat, ts: int, event: WireEvent)
}
